/** The loops of activation and of candidate selection (`config.rs`, `plan.rs`, `mod.rs`). */
module Gateways {
  import opened Prelude
  import opened Sorting
  import opened Activation

  // ---- Activation ----

  /** The groups of the entries so far, as they are pushed: the scope of a group is that of its first candidate. */
  ghost predicate Holds(c: Config, bound: map<Key, Group>, entries: seq<Entry>) {
    && (forall k :: k in bound <==> Collected(c, k, entries) != [])
    && (forall k :: k in bound ==>
          bound[k].candidates == Collected(c, k, entries) && bound[k].scope == Some(Collected(c, k, entries)[0].scope))
  }

  predicate Names(candidates: seq<Candidate>, endpoint: string) {
    exists i :: 0 <= i < |candidates| && candidates[i].endpoint == endpoint
  }

  lemma NamesAppend(a: seq<Candidate>, b: seq<Candidate>, endpoint: string)
    ensures Names(a + b, endpoint) <==> Names(a, endpoint) || Names(b, endpoint)
  {
    if i :| 0 <= i < |a| && a[i].endpoint == endpoint {
      assert (a + b)[i] == a[i];
    }
    if i :| 0 <= i < |b| && b[i].endpoint == endpoint {
      assert (a + b)[|a| + i] == b[i];
    }
  }

  /** A group names an endpoint exactly when an entry for it has brought candidates. */
  lemma {:induction false} CollectedNames(c: Config, entries: seq<Entry>, e: Entry)
    ensures Names(Collected(c, KeyOf(e), entries), e.endpoint) <==> e in entries && Candidates(c, e) != []
  {
    if entries != [] {
      var init, last := entries[..|entries| - 1], entries[|entries| - 1];
      var more := if KeyOf(last) == KeyOf(e) then Candidates(c, last) else [];
      CollectedNames(c, init, e);
      NamesAppend(Collected(c, KeyOf(e), init), more, e.endpoint);
      assert e in entries <==> e in init || e == last by {
        assert entries == init + [last];
      }
      assert more != [] ==> more[0].endpoint == last.endpoint;
    }
  }

  /** One more entry reaches only its own group. */
  lemma OneMore(c: Config, entries: seq<Entry>, n: nat)
    requires n < |entries|
    ensures forall k :: Collected(c, k, entries[..n + 1])
                        == Collected(c, k, entries[..n])
                           + if KeyOf(entries[n]) == k then Candidates(c, entries[n]) else []
  {
    assert entries[..n + 1][..n] == entries[..n] && entries[..n + 1][n] == entries[n];
  }

  lemma {:induction false} CollectedGrows(c: Config, k: Key, entries: seq<Entry>, n: nat)
    requires n <= |entries|
    ensures |Collected(c, k, entries[..n])| <= |Collected(c, k, entries)|
    decreases |entries|
  {
    if n < |entries| {
      assert entries[..|entries| - 1][..n] == entries[..n];
      CollectedGrows(c, k, entries[..|entries| - 1], n);
    } else {
      assert entries[..n] == entries;
    }
  }

  /** The inner loop: one source of the entry's credential after the other joins the group. */
  method PushCandidates(c: Config, e: Entry, bound: map<Key, Group>) returns (ok: bool, next: map<Key, Group>)
    requires Bindable(c, e) && KeyOf(e) in bound ==> |bound[KeyOf(e)].candidates| <= MAX_CANDIDATES
    requires Bindable(c, e)
    ensures var before := if KeyOf(e) in bound then bound[KeyOf(e)].candidates else [];
            && (ok <==> |before| + |Candidates(c, e)| <= MAX_CANDIDATES)
            && (ok && Candidates(c, e) == [] ==> next == bound)
            && (ok && Candidates(c, e) != [] ==>
                  var scope := if KeyOf(e) in bound then bound[KeyOf(e)].scope else Some(Candidates(c, e)[0].scope);
                  next == bound[KeyOf(e) := Group(scope, before + Candidates(c, e))])
  {
    var key := KeyOf(e);
    var binding := c.credentials[c.endpoints[e.endpoint].credential];
    ghost var before := if key in bound then bound[key].candidates else [];
    next := bound;
    var i := 0;
    while i < binding.Used()
      invariant 0 <= i <= binding.Used()
      invariant |before| + i <= MAX_CANDIDATES
      invariant i == 0 ==> next == bound
      invariant i > 0 ==>
                  var scope := if key in bound then bound[key].scope
                    else Some(CandidateOf(c, e, binding.sources[0]).scope);
                  next == bound[key := Group(scope, before + Expand(c, e, i))]
    {
      var candidate := CandidateOf(c, e, binding.sources[i]);
      var group := if key in next then next[key] else Group(Some(candidate.scope), []);
      assert group.candidates == before + Expand(c, e, i);
      if |group.candidates| >= MAX_CANDIDATES {
        ok := false;
        return;
      }
      next := next[key := group.(candidates := group.candidates + [candidate])];
      i := i + 1;
      assert before + Expand(c, e, i - 1) + [candidate] == before + Expand(c, e, i);
      ghost var scope := if key in bound then bound[key].scope else Some(CandidateOf(c, e, binding.sources[0]).scope);
      assert next == bound[key := Group(scope, before + Expand(c, e, i))];
    }
    FirstOf(c, e, binding.Used());
    ok := true;
  }

  lemma {:induction false} FirstOf(c: Config, e: Entry, n: nat)
    requires Bindable(c, e) && n <= |c.credentials[c.endpoints[e.endpoint].credential].sources|
    ensures n > 0 ==> Expand(c, e, n)[0] == CandidateOf(c, e,
      c.credentials[c.endpoints[e.endpoint].credential].sources[0])
  {
    if n > 1 {
      FirstOf(c, e, n - 1);
    }
  }

  lemma HoldsMore(c: Config, bound: map<Key, Group>, next: map<Key, Group>, entries: seq<Entry>, n: nat)
    requires n < |entries| && Holds(c, bound, entries[..n])
    requires var e := entries[n];
             var before := if KeyOf(e) in bound then bound[KeyOf(e)].candidates else [];
             && (Candidates(c, e) == [] ==> next == bound)
             && (Candidates(c, e) != [] ==>
                   var scope := if KeyOf(e) in bound then bound[KeyOf(e)].scope else Some(Candidates(c, e)[0].scope);
                   next == bound[KeyOf(e) := Group(scope, before + Candidates(c, e))])
    ensures Holds(c, next, entries[..n + 1])
  {
    hide Candidates, Collected;
    OneMore(c, entries, n);
    forall k ensures Collected(c, k, entries[..n]) + [] == Collected(c, k, entries[..n]) {
    }
  }

  /** `new_with_media`, for its generation entries: it fails or activates exactly as specified. */
  method Activate(c: Config, entries: seq<Entry>, others: bool) returns (r: Option<map<Key, Group>>)
    ensures r == Activated(c, entries, others)
  {
    hide Candidates, Collected, Bindable, Groups, Keys, SortByKey, Rank, RouteOf;
    var bound: map<Key, Group> := map[];
    var n := 0;
    NothingYet(c);
    assert entries[..0] == [];
    while n < |entries|
      invariant 0 <= n <= |entries|
      invariant Holds(c, bound, entries[..n]) && Admitted(c, entries[..n])
    {
      var e := entries[n];
      if !Bindable(c, e) || (KeyOf(e) in bound && Names(bound[KeyOf(e)].candidates, e.endpoint)) {
        RefusedEntry(c, entries, n);
        return None;
      }
      var ok;
      ghost var before := bound;
      ok, bound := PushCandidates(c, e, bound);
      OneMore(c, entries, n);
      CollectedNames(c, entries[..n], e);
      if !ok {
        CollectedGrows(c, KeyOf(e), entries, n + 1);
        return None;
      }
      HoldsMore(c, before, bound, entries, n);
      AdmittedMore(c, entries, n);
      n := n + 1;
    }
    assert entries[..n] == entries;
    KeysOfHolds(c, bound, entries);
    if bound == map[] && !others {
      return None;
    }
    var activated := map k | k in bound :: Finish(c, k, bound[k]);
    FinishedGroups(c, bound, activated, entries);
    r := Some(activated);
  }

  /** The last loop: route order, and no scope for a group of several. */
  function Finish(c: Config, k: Key, group: Group): Group {
    Group(if |group.candidates| > 1 then None else group.scope,
          SortByKey(group.candidates, Rank(c, k), |RouteOf(c, k)|))
  }

  lemma RefusedEntry(c: Config, entries: seq<Entry>, n: nat)
    requires n < |entries|
    requires !Bindable(c, entries[n]) || Names(Collected(c, KeyOf(entries[n]), entries[..n]), entries[n].endpoint)
    ensures !Admitted(c, entries)
  {
    if Bindable(c, entries[n]) {
      CollectedNames(c, entries[..n], entries[n]);
      var i :| 0 <= i < n && entries[..n][i] == entries[n];
      assert entries[i] == entries[n];
    }
  }

  lemma AdmittedMore(c: Config, entries: seq<Entry>, n: nat)
    requires n < |entries| && Admitted(c, entries[..n]) && Bindable(c, entries[n])
    requires entries[n] !in entries[..n] || Candidates(c, entries[n]) == []
    requires |Collected(c, KeyOf(entries[n]), entries[..n])| + |Candidates(c, entries[n])| <= MAX_CANDIDATES
    ensures Admitted(c, entries[..n + 1])
  {
    hide Candidates, Collected;
    OneMore(c, entries, n);
    var before, more, e := entries[..n], entries[..n + 1], entries[n];
    assert more == before + [e];
    forall i, j | 0 <= i < j <= n && Candidates(c, more[i]) != [] ensures more[i] != more[j] {
      assert more[i] == before[i];
      if j < n {
        assert more[j] == before[j];
      }
    }
    forall k ensures |Collected(c, k, more)| <= MAX_CANDIDATES {
      assert |Collected(c, k, before)| <= MAX_CANDIDATES;
    }
    forall i | 0 <= i <= n ensures Bindable(c, more[i]) {
      if i < n {
        assert more[i] == before[i];
      }
    }
  }

  lemma NothingYet(c: Config)
    ensures Holds(c, map[], []) && Admitted(c, [])
  {
  }

  lemma KeysOfHolds(c: Config, bound: map<Key, Group>, entries: seq<Entry>)
    requires Holds(c, bound, entries)
    ensures bound.Keys == Keys(c, entries)
  {
    forall k ensures k in bound <==> k in Keys(c, entries) {
      SomeCollected(c, k, entries);
    }
  }

  lemma {:induction false} SomeCollected(c: Config, k: Key, entries: seq<Entry>)
    ensures Collected(c, k, entries) != [] <==> k in Keys(c, entries)
  {
    if entries != [] {
      var init, last := entries[..|entries| - 1], entries[|entries| - 1];
      SomeCollected(c, k, init);
      assert entries == init + [last];
    }
  }

  lemma FinishedGroups(c: Config, bound: map<Key, Group>, activated: map<Key, Group>, entries: seq<Entry>)
    requires Holds(c, bound, entries) && bound.Keys == Keys(c, entries)
    requires activated.Keys == bound.Keys && forall k :: k in bound ==> activated[k] == Finish(c, k, bound[k])
    ensures activated == Groups(c, entries)
  {
    hide Candidates, Keys;
  }
}
