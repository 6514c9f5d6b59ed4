/**
 Activation of a gateway (`config.rs`): startup entries are bound to the
 credentials of their endpoints, grouped by protocol family and model, and each
 group is put in route order. The result depends on which entries there are,
 not on their order.
 */
module Activation {
  import opened Prelude
  import opened Sorting

  datatype Profile = Chat | Responses

  datatype Entry = Entry(model: string, protocol: Profile, endpoint: string)

  datatype Endpoint = Endpoint(provider: string, credential: string)

  /** A credential binding: one source, or the ordered members of a pool. */
  datatype Binding = Binding(sources: seq<string>, fallback: bool, maxAttempts: nat) {
    function Used(): nat {
      var count := if fallback then maxAttempts else 1;
      if count <= |sources| then count else |sources|
    }
  }

  /**
   The compiled topology and the credentials: models by route, routes by their
   endpoints in order. `check` is a source's own check against the endpoint;
   `scope` is the replay scope that the digest over source, model, and endpoint
   names.
   */
  datatype Config = Config(
    models: map<string, string>,
    routes: map<string, seq<string>>,
    endpoints: map<string, Endpoint>,
    providers: set<string>,
    credentials: map<string, Binding>,
    check: (string, Endpoint) -> bool,
    scope: (string, string, string) -> string)

  datatype Candidate = Candidate(endpoint: string, source: string, scope: string, credentialFallback: bool)

  datatype Key = Key(family: Profile, model: string)

  /** `scope` is the scope of the group's client side. */
  datatype Group = Group(scope: Option<string>, candidates: seq<Candidate>)

  const MAX_CANDIDATES: nat := 64

  function KeyOf(e: Entry): Key { Key(e.protocol, e.model) }

  // ---- One entry ----

  predicate Bindable(c: Config, e: Entry) {
    && e.model in c.models && c.models[e.model] in c.routes && e.endpoint in c.routes[c.models[e.model]]
    && e.endpoint in c.endpoints
    && var endpoint := c.endpoints[e.endpoint];
       && endpoint.provider in c.providers && endpoint.credential in c.credentials
       && forall source :: source in c.credentials[endpoint.credential].sources ==> c.check(source, endpoint)
  }

  function CandidateOf(c: Config, e: Entry, source: string): Candidate
    requires Bindable(c, e)
  {
    Candidate(e.endpoint, source, c.scope(source, e.model, e.endpoint),
      c.credentials[c.endpoints[e.endpoint].credential].fallback)
  }

  /** The candidates of the first `n` credential sources of an entry, in the order of the credential binding. */
  function Expand(c: Config, e: Entry, n: nat): (r: seq<Candidate>)
    requires Bindable(c, e) && n <= |c.credentials[c.endpoints[e.endpoint].credential].sources|
    ensures |r| == n && forall i :: 0 <= i < n ==> r[i].endpoint == e.endpoint
  {
    if n == 0 then []
    else Expand(c, e, n - 1) + [CandidateOf(c, e, c.credentials[c.endpoints[e.endpoint].credential].sources[n - 1])]
  }

  /** The candidates of an entry: the pool's members up to its budget. */
  function Candidates(c: Config, e: Entry): (r: seq<Candidate>)
    ensures forall i :: 0 <= i < |r| ==> r[i].endpoint == e.endpoint
  {
    if Bindable(c, e) then Expand(c, e, c.credentials[c.endpoints[e.endpoint].credential].Used()) else []
  }

  lemma {:induction false} ExpandIs(c: Config, e: Entry, n: nat, i: nat)
    requires Bindable(c, e) && i < n <= |c.credentials[c.endpoints[e.endpoint].credential].sources|
    ensures Expand(c, e, n)[i] == CandidateOf(c, e, c.credentials[c.endpoints[e.endpoint].credential].sources[i])
  {
    if i < n - 1 {
      ExpandIs(c, e, n - 1, i);
    }
  }

  /**
   An entry brings the first source of its credential, or with fallback as many
   as its budget allows, in the order of the binding; each under the replay
   scope of the source, the model and the endpoint.
   */
  lemma CandidatesAreSources(c: Config, e: Entry)
    requires Bindable(c, e)
    ensures var binding := c.credentials[c.endpoints[e.endpoint].credential];
            var candidates := Candidates(c, e);
            && |candidates| == Min(|binding.sources|, if binding.fallback then binding.maxAttempts else 1)
            && forall i :: 0 <= i < |candidates| ==>
                 candidates[i] == Candidate(e.endpoint, binding.sources[i],
                                            c.scope(binding.sources[i], e.model, e.endpoint), binding.fallback)
  {
    var binding := c.credentials[c.endpoints[e.endpoint].credential];
    forall i | 0 <= i < |Candidates(c, e)|
      ensures Candidates(c, e)[i] == CandidateOf(c, e, binding.sources[i])
    {
      ExpandIs(c, e, binding.Used(), i);
    }
  }

  // ---- All entries ----

  /** The candidates of a group as the entries come. */
  function Collected(c: Config, k: Key, entries: seq<Entry>): seq<Candidate> {
    if entries == [] then []
    else
      var last := entries[|entries| - 1];
      Collected(c, k, entries[..|entries| - 1]) + if KeyOf(last) == k then Candidates(c, last) else []
  }

  /** The keys of the groups that get a candidate. */
  ghost function Keys(c: Config, entries: seq<Entry>): set<Key> {
    set e | e in entries && Candidates(c, e) != [] :: KeyOf(e)
  }

  /** `iter().position`: where the route names this endpoint first. */
  function Position(route: seq<string>, endpoint: string): (p: nat)
    ensures p < |route| <==> endpoint in route
    ensures p < |route| ==> route[p] == endpoint && endpoint !in route[..p]
    ensures p <= |route|
  {
    if route == [] then 0
    else
      var before := Position(route[..|route| - 1], endpoint);
      if before < |route| - 1 then before else if route[|route| - 1] == endpoint then |route| - 1 else |route|
  }

  function RouteOf(c: Config, k: Key): seq<string> {
    if k.model in c.models && c.models[k.model] in c.routes then c.routes[c.models[k.model]] else []
  }

  /** The key by which a group is sorted. */
  function Rank(c: Config, k: Key): Candidate -> nat {
    (candidate: Candidate) => Position(RouteOf(c, k), candidate.endpoint)
  }

  /** The group of the given candidates: sorted, and without a scope when it has several. */
  function Finished(c: Config, k: Key, collected: seq<Candidate>): Group {
    var candidates := SortByKey(collected, Rank(c, k), |RouteOf(c, k)|);
    Group(if |collected| == 1 then Some(collected[0].scope) else None, candidates)
  }

  /** No entry that yields candidates occurs twice. */
  ghost predicate Once(c: Config, entries: seq<Entry>) {
    forall i, j :: 0 <= i < j < |entries| && Candidates(c, entries[i]) != [] ==> entries[i] != entries[j]
  }

  /** Every entry binds, none does so twice, and no group is too large. */
  ghost predicate Admitted(c: Config, entries: seq<Entry>) {
    && (forall i :: 0 <= i < |entries| ==> Bindable(c, entries[i]))
    && Once(c, entries)
    && (forall k :: |Collected(c, k, entries)| <= MAX_CANDIDATES)
  }

  ghost function Groups(c: Config, entries: seq<Entry>): map<Key, Group> {
    map k | k in Keys(c, entries) :: Finished(c, k, Collected(c, k, entries))
  }

  /** What activation yields; `others` says that image or speech entries were activated as well. */
  ghost function Activated(c: Config, entries: seq<Entry>, others: bool): Option<map<Key, Group>> {
    if !Admitted(c, entries) || (Keys(c, entries) == {} && !others) then None
    else Some(Groups(c, entries))
  }

  // ---- The canonical order ----

  /**
   What the place `p` of the route contributes: the candidates of the entry for
   its endpoint, where the route names it first.
   */
  ghost function AtPlace(c: Config, k: Key, entries: set<Entry>, p: nat): seq<Candidate>
    requires p < |RouteOf(c, k)|
  {
    var e := Entry(k.model, k.family, RouteOf(c, k)[p]);
    if e in entries && Position(RouteOf(c, k), e.endpoint) == p then Candidates(c, e) else []
  }

  /** The group in route order. */
  ghost function InRouteOrder(c: Config, k: Key, entries: set<Entry>, n: nat): seq<Candidate>
    requires n <= |RouteOf(c, k)|
  {
    if n == 0 then [] else InRouteOrder(c, k, entries, n - 1) + AtPlace(c, k, entries, n - 1)
  }

  ghost function Canonical(c: Config, k: Key, entries: set<Entry>): seq<Candidate> {
    InRouteOrder(c, k, entries, |RouteOf(c, k)|)
  }

  ghost function SetOf<T>(s: seq<T>): set<T> { set x | x in s }

  lemma {:induction false} CollectedBelow(c: Config, k: Key, entries: seq<Entry>)
    ensures Below(Collected(c, k, entries), Rank(c, k), |RouteOf(c, k)|)
  {
    if entries != [] {
      CollectedBelow(c, k, entries[..|entries| - 1]);
    }
  }

  lemma {:induction false} KeyedAll<T>(s: seq<T>, key: T -> nat, k: nat, j: nat)
    requires forall i :: 0 <= i < |s| ==> key(s[i]) == j
    ensures Keyed(s, key, k) == if k == j then s else []
  {
    if s != [] {
      KeyedAll(s[..|s| - 1], key, k, j);
      assert s == s[..|s| - 1] + [s[|s| - 1]];
    }
  }

  /** The collected candidates of one endpoint are those of the one entry for it. */
  lemma {:induction false} CollectedOf(c: Config, k: Key, entries: seq<Entry>, p: nat)
    requires Once(c, entries) && p < |RouteOf(c, k)|
    ensures var endpoint := RouteOf(c, k)[p];
            var e := Entry(k.model, k.family, endpoint);
            Keyed(Collected(c, k, entries), Rank(c, k), p)
            == if e in entries && Position(RouteOf(c, k), endpoint) == p then Candidates(c, e) else []
  {
    hide Keyed, Candidates, Position, Rank, RouteOf, Once;
    var e := Entry(k.model, k.family, RouteOf(c, k)[p]);
    if entries == [] {
      KeyedOfNothing(Rank(c, k), p);
    } else {
      var init, last := entries[..|entries| - 1], entries[|entries| - 1];
      assert entries == init + [last];
      OnceBefore(c, init, last);
      CollectedOf(c, k, init, p);
      OneEntryOf(c, k, Collected(c, k, init), last, p);
    }
  }

  lemma OnceBefore(c: Config, init: seq<Entry>, last: Entry)
    requires Once(c, init + [last])
    ensures Once(c, init) && (last in init ==> Candidates(c, last) == [])
  {
    var entries := init + [last];
    assert forall i :: 0 <= i < |init| ==> entries[i] == init[i];
    assert entries[|init|] == last;
  }

  lemma OneEntryOf(c: Config, k: Key, before: seq<Candidate>, last: Entry, p: nat)
    requires p < |RouteOf(c, k)|
    ensures var e := Entry(k.model, k.family, RouteOf(c, k)[p]);
            Keyed(before + if KeyOf(last) == k then Candidates(c, last) else [], Rank(c, k), p)
            == Keyed(before, Rank(c, k), p)
               + if last == e && Position(RouteOf(c, k), e.endpoint) == p then Candidates(c, e) else []
  {
    if KeyOf(last) == k {
      KeyedAppend(before, Candidates(c, last), Rank(c, k), p);
      KeyedAll(Candidates(c, last), Rank(c, k), p, Position(RouteOf(c, k), last.endpoint));
    } else {
      assert before + [] == before;
    }
  }

  lemma PlaceOf(c: Config, k: Key, entries: seq<Entry>, p: nat)
    requires Once(c, entries) && p < |RouteOf(c, k)|
    ensures Keyed(Collected(c, k, entries), Rank(c, k), p) == AtPlace(c, k, SetOf(entries), p)
  {
    hide Keyed, Collected, Candidates, Position, Once, Rank;
    CollectedOf(c, k, entries, p);
  }

  lemma {:induction false} SortedIsCanonical(c: Config, k: Key, entries: seq<Entry>, n: nat)
    requires Once(c, entries) && n <= |RouteOf(c, k)|
    ensures SortByKey(Collected(c, k, entries), Rank(c, k), n) == InRouteOrder(c, k, SetOf(entries), n)
  {
    hide Keyed, Collected, AtPlace, Once, Rank, RouteOf, SetOf;
    if n > 0 {
      SortedIsCanonical(c, k, entries, n - 1);
      PlaceOf(c, k, entries, n - 1);
    }
  }

  /**
   An activated group is in route order by endpoint and in credential order
   within an endpoint; only a group of one candidate keeps a replay scope.
   */
  lemma GroupsAreCanonical(c: Config, k: Key, entries: seq<Entry>)
    requires Once(c, entries)
    ensures var group := Finished(c, k, Collected(c, k, entries));
            && group.candidates == Canonical(c, k, SetOf(entries))
            && |group.candidates| == |Collected(c, k, entries)|
            && group.scope == if |group.candidates| == 1 then Some(group.candidates[0].scope) else None
  {
    var collected := Collected(c, k, entries);
    SortedIsCanonical(c, k, entries, |RouteOf(c, k)|);
    CollectedBelow(c, k, entries);
    SortLength(collected, Rank(c, k), |RouteOf(c, k)|);
    if |collected| == 1 {
      AscendingIsSorted(collected, Rank(c, k), |RouteOf(c, k)|);
    }
  }

  lemma PermutedMembers<T>(a: seq<T>, b: seq<T>)
    requires multiset(a) == multiset(b)
    ensures SetOf(a) == SetOf(b) && |a| == |b|
  {
    assert forall x :: x in a <==> x in multiset(a);
    assert forall x :: x in b <==> x in multiset(b);
    assert |multiset(a)| == |a| && |multiset(b)| == |b|;
  }

  lemma {:induction false} TwiceMeansTwo<T>(s: seq<T>, x: T)
    ensures multiset(s)[x] >= 2 <==> exists i, j :: 0 <= i < j < |s| && s[i] == x && s[j] == x
  {
    if s != [] {
      var init, last := s[..|s| - 1], s[|s| - 1];
      assert s == init + [last];
      TwiceMeansTwo(init, x);
      if last == x && multiset(init)[x] == 1 {
        assert x in init;
        var i :| 0 <= i < |init| && init[i] == x;
        assert s[i] == x && s[|s| - 1] == x;
      }
      if i, j :| 0 <= i < j < |s| && s[i] == x && s[j] == x {
        assert init[i] == x;
      }
    }
  }

  lemma OnceIsShared(c: Config, a: seq<Entry>, b: seq<Entry>)
    requires multiset(a) == multiset(b) && Once(c, a)
    ensures Once(c, b)
  {
    forall i, j | 0 <= i < j < |b| && Candidates(c, b[i]) != [] ensures b[i] != b[j] {
      TwiceMeansTwo(a, b[i]);
      TwiceMeansTwo(b, b[i]);
    }
  }

  lemma AdmittedIsShared(c: Config, a: seq<Entry>, b: seq<Entry>)
    requires multiset(a) == multiset(b) && Admitted(c, a)
    ensures Admitted(c, b)
  {
    PermutedMembers(a, b);
    OnceIsShared(c, a, b);
    forall i | 0 <= i < |b| ensures Bindable(c, b[i]) {
      assert b[i] in SetOf(a);
    }
    forall k ensures |Collected(c, k, b)| <= MAX_CANDIDATES {
      GroupsAreCanonical(c, k, a);
      GroupsAreCanonical(c, k, b);
    }
  }

  lemma KeysAreShared(c: Config, a: seq<Entry>, b: seq<Entry>)
    requires SetOf(a) == SetOf(b)
    ensures Keys(c, a) == Keys(c, b)
  {
    assert forall e :: e in a <==> e in SetOf(a);
    assert forall e :: e in b <==> e in SetOf(b);
  }

  lemma GroupIsShared(c: Config, k: Key, a: seq<Entry>, b: seq<Entry>)
    requires Once(c, a) && Once(c, b) && SetOf(a) == SetOf(b)
    ensures Finished(c, k, Collected(c, k, a)) == Finished(c, k, Collected(c, k, b))
  {
    GroupsAreCanonical(c, k, a);
    GroupsAreCanonical(c, k, b);
  }

  lemma GroupsAreShared(c: Config, a: seq<Entry>, b: seq<Entry>)
    requires Once(c, a) && Once(c, b) && SetOf(a) == SetOf(b)
    ensures Groups(c, a) == Groups(c, b)
  {
    hide Finished, Once;
    KeysAreShared(c, a, b);
    var x, y := Groups(c, a), Groups(c, b);
    assert x.Keys == y.Keys;
    forall k | k in x.Keys ensures x[k] == y[k] {
      GroupIsShared(c, k, a, b);
    }
  }

  /** The route of the entry's model passes through its endpoint, whose provider is there and whose sources all pass. */
  predicate Reaches(c: Config, e: Entry, route: string, at: Endpoint, binding: Binding) {
    && (e.model, route) in c.models.Items && (e.endpoint, at) in c.endpoints.Items
    && (at.credential, binding) in c.credentials.Items && at.provider in c.providers
    && route in c.routes && e.endpoint in c.routes[route]
    && forall i :: 0 <= i < |binding.sources| ==> c.check(binding.sources[i], at)
  }

  ghost predicate Served(c: Config, e: Entry) { exists route, at, binding :: Reaches(c, e, route, at, binding) }

  lemma ServedIsBindable(c: Config, e: Entry)
    ensures Bindable(c, e) <==> Served(c, e)
  {
    if Bindable(c, e) {
      var route, at := c.models[e.model], c.endpoints[e.endpoint];
      assert Reaches(c, e, route, at, c.credentials[at.credential]);
    }
  }

  /** Every entry is served, none that brings a candidate is repeated, and no group has more than 64 candidates. */
  ghost predicate Orderly(c: Config, entries: seq<Entry>) {
    && (forall e :: e in entries ==> Served(c, e))
    && (forall i, j :: 0 <= i < j < |entries| && entries[i] == entries[j] ==> Candidates(c, entries[i]) == [])
    && (forall k :: |Collected(c, k, entries)| <= 64)
  }

  lemma OrderlyIsAdmitted(c: Config, entries: seq<Entry>)
    ensures Admitted(c, entries) <==> Orderly(c, entries)
  {
    hide Candidates, Bindable, Served;
    forall e ensures Bindable(c, e) <==> Served(c, e) {
      ServedIsBindable(c, e);
    }
    if Orderly(c, entries) {
      forall k ensures |Collected(c, k, entries)| <= MAX_CANDIDATES {
      }
    }
    if Admitted(c, entries) {
      forall k ensures |Collected(c, k, entries)| <= 64 {
      }
      forall i, j | 0 <= i < j < |entries| && entries[i] == entries[j] ensures Candidates(c, entries[i]) == [] {
      }
    }
  }

  /** A gateway is activated exactly when its entries are orderly and there is something to serve. */
  lemma ActivationAnswers(c: Config, entries: seq<Entry>, others: bool)
    ensures Activated(c, entries, others).Some? <==>
              Orderly(c, entries) && (others || exists e :: e in entries && Candidates(c, e) != [])
  {
    hide Candidates, Admitted, Orderly, Groups, Keys;
    OrderlyIsAdmitted(c, entries);
    KeysNotEmpty(c, entries);
  }

  lemma KeysNotEmpty(c: Config, entries: seq<Entry>)
    ensures Keys(c, entries) != {} <==> exists e :: e in entries && Candidates(c, e) != []
  {
    if e :| e in entries && Candidates(c, e) != [] {
      assert KeyOf(e) in Keys(c, entries);
    }
  }

  /** The activated groups are those of the entries that bring candidates, each in route order. */
  lemma ActivatedGroups(c: Config, entries: seq<Entry>, others: bool)
    requires Activated(c, entries, others).Some?
    ensures var groups := Activated(c, entries, others).value;
            && (forall k :: k in groups <==> exists e :: e in entries && Candidates(c, e) != [] && KeyOf(e) == k)
            && (forall k :: k in groups ==>
                  var candidates := Canonical(c, k, SetOf(entries));
                  groups[k] == Group(if |candidates| == 1 then Some(candidates[0].scope) else None, candidates))
  {
    hide Candidates, Collected, Finished, Canonical;
    var groups := Activated(c, entries, others).value;
    forall k | k in groups
      ensures var candidates := Canonical(c, k, SetOf(entries));
              groups[k] == Group(if |candidates| == 1 then Some(candidates[0].scope) else None, candidates)
    {
      GroupsAreCanonical(c, k, entries);
    }
  }

  /** Any permutation of the startup entries activates the same gateway, or fails as well. */
  lemma OrderIsIrrelevant(c: Config, a: seq<Entry>, b: seq<Entry>, others: bool)
    requires multiset(a) == multiset(b)
    ensures Activated(c, a, others) == Activated(c, b, others)
  {
    hide Groups, Keys;
    PermutedMembers(a, b);
    KeysAreShared(c, a, b);
    if Admitted(c, a) {
      AdmittedIsShared(c, a, b);
      GroupsAreShared(c, a, b);
    } else if Admitted(c, b) {
      AdmittedIsShared(c, b, a);
    }
  }
}
