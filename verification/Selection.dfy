/** Choosing the candidates of one request from an activated group (`plan.rs`, `mod.rs`). */
module Selection {
  import opened Prelude
  import opened Activation

  datatype Reason = Streaming | BodyLimit | Semantic | Image | ReplayScope | Representation

  /** Ordinals are positions in the list of candidates; of a rejected one only its position is kept here. */
  datatype Result =
    | Selected(ordinals: seq<nat>, rejections: seq<nat>)
    | LimitExceeded
    | Rejected(reason: Reason)
    | NoCandidate(rejections: seq<nat>)

  /** The positions of the good verdicts, or of the bad ones. */
  function Positions(verdicts: seq<Option<Reason>>, good: bool): seq<nat> {
    if verdicts == [] then []
    else
      var n := |verdicts| - 1;
      Positions(verdicts[..n], good) + if verdicts[n].None? == good then [n] else []
  }

  /** The verdict at a position is good, or bad. */
  predicate Has(verdicts: seq<Option<Reason>>, n: nat, good: bool) { n < |verdicts| && verdicts[n].None? == good }

  lemma PositionsMore(verdicts: seq<Option<Reason>>, v: Option<Reason>, good: bool)
    ensures Positions(verdicts + [v], good)
            == if v.None? == good then Positions(verdicts, good) + [|verdicts|] else Positions(verdicts, good)
  {
    assert (verdicts + [v])[..|verdicts|] == verdicts;
  }

  lemma NoPositions(good: bool)
    ensures Positions([], good) == []
  {
  }

  /** Ordinals are in range, strictly increasing, and exactly those of the good (or bad) verdicts. */
  lemma {:induction false} PositionsAreExact(verdicts: seq<Option<Reason>>, good: bool)
    ensures var ordinals := Positions(verdicts, good);
            && (forall i, j :: 0 <= i < j < |ordinals| ==> ordinals[i] < ordinals[j])
            && (forall i :: 0 <= i < |ordinals| ==> Has(verdicts, ordinals[i], good))
            && (forall n: nat :: Has(verdicts, n, good) ==> n in ordinals)
  {
    hide Positions;
    NoPositions(good);
    if verdicts != [] {
      var n := |verdicts| - 1;
      var init, last := verdicts[..n], verdicts[n];
      var before := Positions(init, good);
      assert init + [last] == verdicts;
      PositionsAreExact(init, good);
      PositionsMore(init, last, good);
      assert forall m: nat :: Has(verdicts, m, good) <==> Has(init, m, good) || (m == n && last.None? == good);
      if last.None? == good {
        assert forall m: nat :: m in before + [n] <==> m in before || m == n;
      }
    }
  }

  /** `verdicts` are the answers of `representable` for the endpoints, in order. */
  method SelectCandidates(requireAll: bool, verdicts: seq<Option<Reason>>) returns (r: Result)
    ensures r.Selected? ==>
              && |verdicts| <= MAX_CANDIDATES && r.ordinals != []
              && r.ordinals == Positions(verdicts, true) && r.rejections == Positions(verdicts, false)
              && (requireAll ==> forall i :: 0 <= i < |verdicts| ==> verdicts[i].None?)
    ensures r.Rejected? ==>
              requireAll
              && exists i :: 0 <= i < |verdicts| && i < MAX_CANDIDATES && verdicts[i] == Some(r.reason)
                             && forall j :: 0 <= j < i ==> verdicts[j].None?
    ensures r.LimitExceeded? ==>
              |verdicts| > MAX_CANDIDATES && (requireAll ==> forall i :: 0 <= i < MAX_CANDIDATES ==> verdicts[i].None?)
    ensures r.NoCandidate? ==> |verdicts| <= MAX_CANDIDATES && (forall i :: 0 <= i < |verdicts| ==> verdicts[i].Some?)
                               && (requireAll ==> verdicts == []) && r.rejections == Positions(verdicts, false)
  {
    var ordinals, rejections := [], [];
    var n := 0;
    while n < |verdicts|
      invariant 0 <= n <= |verdicts| && n <= MAX_CANDIDATES
      invariant ordinals == Positions(verdicts[..n], true) && rejections == Positions(verdicts[..n], false)
      invariant requireAll ==> forall i :: 0 <= i < n ==> verdicts[i].None?
    {
      if n >= MAX_CANDIDATES {
        return LimitExceeded;
      }
      assert verdicts[..n + 1][..n] == verdicts[..n] && verdicts[..n + 1][n] == verdicts[n];
      match verdicts[n] {
        case None => ordinals := ordinals + [n];
        case Some(reason) =>
          if requireAll {
            return Rejected(reason);
          }
          rejections := rejections + [n];
      }
      n := n + 1;
    }
    assert verdicts[..n] == verdicts;
    PositionsAreExact(verdicts, true);
    if ordinals == [] {
      forall i | 0 <= i < |verdicts| ensures verdicts[i].Some? {
        assert !Has(verdicts, i, true);
      }
      return NoCandidate(rejections);
    }
    r := Selected(ordinals, rejections);
  }

  /** The candidates with a good verdict, in order. */
  function Kept(candidates: seq<Candidate>, verdicts: seq<Option<Reason>>): seq<Candidate>
    requires |verdicts| == |candidates|
  {
    if candidates == [] then []
    else
      var n := |candidates| - 1;
      Kept(candidates[..n], verdicts[..n]) + if verdicts[n].None? then [candidates[n]] else []
  }

  function Picked(candidates: seq<Candidate>, ordinals: seq<nat>): seq<Candidate>
    requires forall i :: 0 <= i < |ordinals| ==> ordinals[i] < |candidates|
  {
    seq(|ordinals|, i requires 0 <= i < |ordinals| => candidates[ordinals[i]])
  }

  lemma PickedMore(candidates: seq<Candidate>, ordinals: seq<nat>, n: nat)
    requires n < |candidates| && forall i :: 0 <= i < |ordinals| ==> ordinals[i] < n
    ensures forall i :: 0 <= i < |ordinals + [n]| ==> (ordinals + [n])[i] < |candidates|
    ensures Picked(candidates, ordinals) == Picked(candidates[..n], ordinals)
    ensures Picked(candidates, ordinals + [n]) == Picked(candidates, ordinals) + [candidates[n]]
  {
  }

  lemma PositionsInRange(verdicts: seq<Option<Reason>>, good: bool)
    ensures forall i :: 0 <= i < |Positions(verdicts, good)| ==> Positions(verdicts, good)[i] < |verdicts|
  {
    PositionsAreExact(verdicts, good);
  }

  /** Picking the good positions keeps exactly the good candidates, in order. */
  lemma {:induction false} PickedIsKept(candidates: seq<Candidate>, verdicts: seq<Option<Reason>>)
    requires |verdicts| == |candidates|
    ensures var ordinals := Positions(verdicts, true);
            && (forall i :: 0 <= i < |ordinals| ==> ordinals[i] < |candidates|)
            && Picked(candidates, ordinals) == Kept(candidates, verdicts)
  {
    hide Positions, Has;
    if candidates == [] {
      NoPositions(true);
    } else {
      var n := |candidates| - 1;
      KeptLast(candidates, verdicts);
      PositionsInRange(verdicts, true);
      PositionsInRange(verdicts[..n], true);
      PickedIsKept(candidates[..n], verdicts[..n]);
      PickedMore(candidates, Positions(verdicts[..n], true), n);
    }
  }

  lemma KeptLast(candidates: seq<Candidate>, verdicts: seq<Option<Reason>>)
    requires |verdicts| == |candidates| > 0
    ensures var n := |candidates| - 1;
            && Kept(candidates, verdicts)
               == (if verdicts[n].None? then Kept(candidates[..n], verdicts[..n]) + [candidates[n]]
                   else Kept(candidates[..n], verdicts[..n]))
            && Positions(verdicts, true)
               == (if verdicts[n].None? then Positions(verdicts[..n], true) + [n] else Positions(verdicts[..n], true))
  {
  }

  /**
   `BoundEntry::eligible`: the representable candidates of the group in its
   order, all or none of them when the route requires all, and nothing at all
   when a private continuation meets a group of several.
   */
  method Eligible(group: Group, requireAll: bool, continues: bool, verdicts: seq<Option<Reason>>)
    returns (r: Option<seq<Candidate>>)
    requires |verdicts| == |group.candidates| <= MAX_CANDIDATES
    ensures var kept := Kept(group.candidates, verdicts);
            var refused := kept == [] || (continues && |group.candidates| > 1)
                           || (requireAll && exists i :: 0 <= i < |verdicts| && verdicts[i].Some?);
            r == if refused then None else Some(kept)
  {
    if |group.candidates| > 1 && continues {
      return None;
    }
    var selected := SelectCandidates(requireAll, verdicts);
    NothingKept(group.candidates, verdicts);
    if !selected.Selected? {
      return None;
    }
    PickedIsKept(group.candidates, verdicts);
    PositionsAreExact(verdicts, true);
    assert Has(verdicts, selected.ordinals[0], true);
    r := Some(Picked(group.candidates, selected.ordinals));
  }

  lemma {:induction false} NothingKept(candidates: seq<Candidate>, verdicts: seq<Option<Reason>>)
    requires |verdicts| == |candidates|
    ensures Kept(candidates, verdicts) == [] <==> forall i :: 0 <= i < |verdicts| ==> verdicts[i].Some?
  {
    if candidates != [] {
      var n := |candidates| - 1;
      NothingKept(candidates[..n], verdicts[..n]);
      assert forall i :: 0 <= i < n ==> verdicts[..n][i] == verdicts[i];
    }
  }

  /** Every activated group is within the planning budget, so that selection never exceeds it. */
  lemma ActivatedGroupsFit(c: Config, entries: seq<Entry>, others: bool, k: Key)
    requires Activated(c, entries, others).Some? && k in Activated(c, entries, others).value
    ensures 0 < |Activated(c, entries, others).value[k].candidates| <= MAX_CANDIDATES
  {
    GroupsAreCanonical(c, k, entries);
    SomeMember(c, k, entries);
  }

  lemma {:induction false} SomeMember(c: Config, k: Key, entries: seq<Entry>)
    requires k in Keys(c, entries)
    ensures Collected(c, k, entries) != []
  {
    var init, last := entries[..|entries| - 1], entries[|entries| - 1];
    assert entries == init + [last];
    if k in Keys(c, init) {
      SomeMember(c, k, init);
    }
  }
}
