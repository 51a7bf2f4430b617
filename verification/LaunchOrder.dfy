// Start and stop order of services (src/launch/order.ts): a dependency-first expansion and a
// grouping by tier.
module LaunchOrder {
  import opened Wrappers

  datatype Service = Service(code: string, project: Option<string>, usesCorpus: bool, dependsOn: seq<string>)

  function StartTier(s: Service): nat {
    var key := if s.project.Some? then s.project.value else s.code;
    if key == "infra" then 0
    else if key == "cernere" then 1
    else if key == "corpus" then 2
    else if s.usesCorpus then 3 else 5
  }

  // ----- The dependency relation -----

  /** The catalog entry of a code; of duplicates the last one. */
  function ByCode(services: seq<Service>, code: string): Option<Service> {
    if services == [] then None
    else if services[|services| - 1].code == code then Some(services[|services| - 1])
    else ByCode(services[..|services| - 1], code)
  }

  function Dependencies(services: seq<Service>, code: string): seq<string> {
    match ByCode(services, code)
    case None => []
    case Some(s) => s.dependsOn
  }

  predicate IsPath(services: seq<Service>, path: seq<string>) {
    && path != []
    && forall i :: 0 <= i < |path| - 1 ==> path[i + 1] in Dependencies(services, path[i])
  }

  /** `to` is `from` or one of its direct or indirect dependencies. */
  ghost predicate Reaches(services: seq<Service>, from: string, to: string) {
    exists path :: IsPath(services, path) && path[0] == from && path[|path| - 1] == to
  }

  lemma PathFront(services: seq<Service>, path: seq<string>)
    requires IsPath(services, path) && |path| > 1
    ensures IsPath(services, path[..|path| - 1]) && path[|path| - 1] in Dependencies(services, path[|path| - 2])
  {
    hide Dependencies;
    var front := path[..|path| - 1];
    forall i | 0 <= i < |front| - 1 ensures front[i + 1] in Dependencies(services, front[i]) {
      assert path[i + 1] in Dependencies(services, path[i]);
    }
    assert path[|path| - 2 + 1] in Dependencies(services, path[|path| - 2]);
  }

  lemma ReachesItself(services: seq<Service>, code: string)
    ensures Reaches(services, code, code)
  {
    assert IsPath(services, [code]);
  }

  lemma ReachesOn(services: seq<Service>, from: string, mid: string, to: string)
    requires Reaches(services, from, mid) && to in Dependencies(services, mid)
    ensures Reaches(services, from, to)
  {
    var path :| IsPath(services, path) && path[0] == from && path[|path| - 1] == mid;
    assert IsPath(services, path + [to]);
  }

  lemma ReachesFirst(services: seq<Service>, from: string, mid: string, to: string)
    requires mid in Dependencies(services, from) && Reaches(services, mid, to)
    ensures Reaches(services, from, to)
  {
    var path :| IsPath(services, path) && path[0] == mid && path[|path| - 1] == to;
    assert IsPath(services, [from] + path);
  }

  /** `first` occurs before `then'` in the list. */
  ghost predicate Before<T(!new)>(list: seq<T>, first: T, second: T) {
    exists i, j :: 0 <= i < j < |list| && list[i] == first && list[j] == second
  }

  predicate Distinct<T(==)>(list: seq<T>) {
    forall i, j :: 0 <= i < j < |list| ==> list[i] != list[j]
  }

  // ----- The expansion -----

  /** What the visited codes promise: a dependency comes first unless it leads back. */
  ghost predicate DependencyFirst(services: seq<Service>, out: seq<string>) {
    forall c, d :: c in out && d in Dependencies(services, c) ==> Before(out, d, c) || Reaches(services, d, c)
  }

  /** Codes a visit may meet: closed under dependencies. */
  ghost predicate Universe(services: seq<Service>, codes: set<string>) {
    forall c, d :: c in codes && d in Dependencies(services, c) ==> d in codes
  }

  /** The state of the depth-first visit: what was put out, and the codes on the stack. */
  ghost predicate Visited(services: seq<Service>, out: seq<string>, seen: set<string>, visiting: set<string>) {
    && Distinct(out) && (forall c :: c in seen <==> c in out) && seen !! visiting
    && (forall c, d :: c in out && d in Dependencies(services, c) ==> d in seen || d in visiting)
    && DependencyFirst(services, out)
  }

  /** Every code on the stack leads to this one. */
  ghost predicate AllReach(services: seq<Service>, visiting: set<string>, code: string) {
    forall v :: v in visiting ==> Reaches(services, v, code)
  }

  /** Everything put out since `before` is a dependency of this code, or the code itself. */
  ghost predicate Adds(services: seq<Service>, code: string, before: seq<string>, out: seq<string>) {
    before <= out && forall c :: c in out && c !in before ==> Reaches(services, code, c)
  }

  ghost predicate Handled(codes: seq<string>, seen: set<string>, visiting: set<string>) {
    forall c :: c in codes ==> c in seen || c in visiting
  }

  // ----- The order of the expansion -----

  /** The list after visiting one code below those on the stack; `universe` only bounds the recursion. */
  function VisitOne(services: seq<Service>, code: string, out: seq<string>, stack: set<string>,
                    universe: set<string>): seq<string>
    decreases |universe - stack|, 0
  {
    if code in out || code in stack || code !in universe then out
    else
      Smaller(universe - (stack + {code}), universe - stack);
      VisitAll(services, Dependencies(services, code), out, stack + {code}, universe) + [code]
  }

  /** The list after visiting several codes, one after the other. */
  function VisitAll(services: seq<Service>, codes: seq<string>, out: seq<string>, stack: set<string>,
                    universe: set<string>): seq<string>
    decreases |universe - stack|, |codes| + 1
  {
    if codes == [] then out
    else VisitAll(services, codes[1..], VisitOne(services, codes[0], out, stack, universe), stack, universe)
  }

  lemma {:induction false} VisitConcat(services: seq<Service>, a: seq<string>, b: seq<string>, out: seq<string>,
                                       stack: set<string>, universe: set<string>)
    ensures VisitAll(services, a + b, out, stack, universe)
         == VisitAll(services, b, VisitAll(services, a, out, stack, universe), stack, universe)
    decreases |a|
  {
    hide VisitOne;
    if a == [] {
      assert a + b == b;
    } else {
      assert (a + b)[1..] == a[1..] + b;
      VisitConcat(services, a[1..], b, VisitOne(services, a[0], out, stack, universe), stack, universe);
    }
  }

  lemma VisitNext(services: seq<Service>, codes: seq<string>, i: nat, out: seq<string>, stack: set<string>,
                  universe: set<string>)
    requires i < |codes|
    ensures VisitAll(services, codes[..i + 1], out, stack, universe)
         == VisitOne(services, codes[i], VisitAll(services, codes[..i], out, stack, universe), stack, universe)
  {
    hide VisitOne;
    VisitConcat(services, codes[..i], [codes[i]], out, stack, universe);
    assert [codes[i]][1..] == [] && codes[..i + 1] == codes[..i] + [codes[i]];
  }

  /** A visit only appends. */
  lemma {:induction false} VisitExtends(services: seq<Service>, codes: seq<string>, out: seq<string>,
                                        stack: set<string>, universe: set<string>)
    ensures out <= VisitAll(services, codes, out, stack, universe)
    decreases |universe - stack|, |codes| + 1
  {
    if codes != [] {
      VisitOneExtends(services, codes[0], out, stack, universe);
      VisitExtends(services, codes[1..], VisitOne(services, codes[0], out, stack, universe), stack, universe);
    }
  }

  lemma {:induction false} VisitOneExtends(services: seq<Service>, code: string, out: seq<string>,
                                           stack: set<string>, universe: set<string>)
    ensures out <= VisitOne(services, code, out, stack, universe)
    decreases |universe - stack|, 0
  {
    if code !in out && code !in stack && code in universe {
      Smaller(universe - (stack + {code}), universe - stack);
      VisitExtends(services, Dependencies(services, code), out, stack + {code}, universe);
    }
  }

  /** What bounds the recursion does not matter. */
  lemma {:induction false} SameVisit(services: seq<Service>, codes: seq<string>, out: seq<string>, stack: set<string>,
                                     u: set<string>, v: set<string>)
    requires Universe(services, u) && Universe(services, v) && forall c :: c in codes ==> c in u && c in v
    ensures VisitAll(services, codes, out, stack, u) == VisitAll(services, codes, out, stack, v)
    decreases |u - stack|, |codes|
  {
    if codes != [] {
      hide Universe, Dependencies;
      var code := codes[0];
      if code !in out && code !in stack {
        Smaller(u - (stack + {code}), u - stack);
        forall d | d in Dependencies(services, code) ensures d in u && d in v {
          InUniverse(services, u, code, d);
          InUniverse(services, v, code, d);
        }
        SameVisit(services, Dependencies(services, code), out, stack + {code}, u, v);
      }
      SameVisit(services, codes[1..], VisitOne(services, code, out, stack, u), stack, u, v);
    }
  }

  /** The whole expansion. */
  function Expanded(services: seq<Service>, codes: seq<string>): seq<string> {
    VisitAll(services, codes, [], {}, Mentioned(services) + CodeSet(codes))
  }

  /** The expansion of a request begins with that of its beginning: earlier codes, and what they need, come
      first. */
  lemma BeginningsAreKept(services: seq<Service>, codes: seq<string>, k: nat)
    requires k <= |codes|
    ensures Expanded(services, codes[..k]) <= Expanded(services, codes)
  {
    hide VisitAll, Mentioned;
    var whole, part := Mentioned(services) + CodeSet(codes), Mentioned(services) + CodeSet(codes[..k]);
    UniverseOf(services, codes);
    UniverseOf(services, codes[..k]);
    SameVisit(services, codes[..k], [], {}, part, whole);
    assert codes == codes[..k] + codes[k..];
    VisitConcat(services, codes[..k], codes[k..], [], {}, whole);
    VisitExtends(services, codes[k..], VisitAll(services, codes[..k], [], {}, whole), {}, whole);
  }

  /** Below a code its dependencies come in the order in which it lists them: the list after its first `k`
      dependencies is the beginning of the whole, and the code itself is its end. */
  lemma DependenciesInOrder(services: seq<Service>, code: string, out: seq<string>, stack: set<string>,
                            universe: set<string>, k: nat)
    requires code !in out && code !in stack && code in universe && k <= |Dependencies(services, code)|
    ensures var first := VisitAll(services, Dependencies(services, code)[..k], out, stack + {code}, universe);
      var whole := VisitOne(services, code, out, stack, universe);
      whole != [] && whole[|whole| - 1] == code && first <= whole[..|whole| - 1]
    ensures k == |Dependencies(services, code)| ==>
      VisitOne(services, code, out, stack, universe)
      == VisitAll(services, Dependencies(services, code)[..k], out, stack + {code}, universe) + [code]
  {
    hide Dependencies;
    var all := Dependencies(services, code);
    assert all[..|all|] == all;
    assert all == all[..k] + all[k..];
    VisitConcat(services, all[..k], all[k..], out, stack + {code}, universe);
    VisitExtends(services, all[k..], VisitAll(services, all[..k], out, stack + {code}, universe), stack + {code},
                 universe);
  }

  class Expansion {
    const services: seq<Service>
    var out: seq<string>
    var seen: set<string>
    var visiting: set<string>

    constructor (services: seq<Service>)
      ensures this.services == services && out == [] && seen == {} && visiting == {}
      ensures Visited(services, out, seen, visiting)
    {
      this.services, out, seen, visiting := services, [], {}, {};
    }

    method Visit(code: string, ghost universe: set<string>)
      requires Visited(services, out, seen, visiting) && AllReach(services, visiting, code)
      requires Universe(services, universe) && code in universe
      modifies this
      ensures Visited(services, out, seen, visiting) && visiting == old(visiting)
      ensures old(seen) <= seen && (code in seen || code in visiting)
      ensures Adds(services, code, old(out), out)
      ensures out == VisitOne(services, code, old(out), visiting, universe)
      decreases |universe - visiting - seen|
    {
      SeenIsOut(services, out, seen, visiting);
      hide Visited, AllReach, Adds, Handled, Reaches, Universe, Dependencies, VisitAll, VisitOne;
      VisitKnown(services, code, out, visiting, universe);
      AddsNothing(services, code, out);
      if code in seen || code in visiting {
        return;
      }
      EnterVisit(services, out, seen, visiting, code);
      visiting := visiting + {code};
      var dependencies := Dependencies(services, code);
      NothingHandled(seen, visiting);
      VisitNothing(services, out, visiting, universe);
      for i := 0 to |dependencies|
        invariant Visited(services, out, seen, visiting) && visiting == old(visiting) + {code}
        invariant old(seen) <= seen && Handled(dependencies[..i], seen, visiting)
        invariant Adds(services, code, old(out), out)
        invariant out == VisitAll(services, dependencies[..i], old(out), visiting, universe)
      {
        var d := dependencies[i];
        VisitNext(services, dependencies, i, old(out), visiting, universe);
        ghost var out0, seen0 := out, seen;
        ReachOn(services, old(visiting), code, d);
        InUniverse(services, universe, code, d);
        Shrinks(universe, old(visiting), old(seen), seen, code);
        Visit(d, universe);
        AddsOn(services, code, d, old(out), out0, out);
        HandledOn(dependencies, i, seen0, seen, visiting);
      }
      assert dependencies[..|dependencies|] == dependencies;
      LeaveVisit(services, out, seen, old(visiting), code);
      AddsItself(services, code, old(out), out);
      assert visiting - {code} == old(visiting);
      visiting, seen, out := visiting - {code}, seen + {code}, out + [code];
    }
  }

  lemma SeenIsOut(services: seq<Service>, out: seq<string>, seen: set<string>, visiting: set<string>)
    requires Visited(services, out, seen, visiting)
    ensures forall c :: c in seen <==> c in out
  {
  }

  lemma VisitKnown(services: seq<Service>, code: string, out: seq<string>, stack: set<string>, universe: set<string>)
    ensures code in out || code in stack ==> VisitOne(services, code, out, stack, universe) == out
    ensures code !in out && code !in stack && code in universe ==>
      VisitOne(services, code, out, stack, universe)
      == VisitAll(services, Dependencies(services, code), out, stack + {code}, universe) + [code]
  {
    hide VisitAll, Dependencies;
  }

  lemma VisitNothing(services: seq<Service>, out: seq<string>, stack: set<string>, universe: set<string>)
    ensures VisitAll(services, [], out, stack, universe) == out
  {
  }

  lemma AddsNothing(services: seq<Service>, code: string, out: seq<string>)
    ensures Adds(services, code, out, out)
  {
  }

  lemma NothingHandled(seen: set<string>, visiting: set<string>)
    ensures Handled([], seen, visiting)
  {
  }

  lemma HandledOn(codes: seq<string>, i: nat, seen0: set<string>, seen: set<string>, visiting: set<string>)
    requires i < |codes| && Handled(codes[..i], seen0, visiting) && seen0 <= seen
    requires codes[i] in seen || codes[i] in visiting
    ensures Handled(codes[..i + 1], seen, visiting)
  {
    assert codes[..i + 1] == codes[..i] + [codes[i]];
  }

  lemma EnterVisit(services: seq<Service>, out: seq<string>, seen: set<string>, visiting: set<string>, code: string)
    requires Visited(services, out, seen, visiting) && code !in seen
    ensures Visited(services, out, seen, visiting + {code})
  {
    hide DependencyFirst, Dependencies, Distinct;
  }

  lemma LeaveVisit(services: seq<Service>, out: seq<string>, seen: set<string>, visiting: set<string>, code: string)
    requires Visited(services, out, seen, visiting + {code}) && code !in visiting
    requires Handled(Dependencies(services, code), seen, visiting + {code})
    requires AllReach(services, visiting, code)
    ensures Visited(services, out + [code], seen + {code}, visiting) && code !in seen
  {
    hide DependencyFirst, Dependencies, Reaches;
    ReachesItself(services, code);
    PushKeepsOrder(services, out, code, seen, visiting + {code});
  }

  lemma ReachOn(services: seq<Service>, visiting: set<string>, code: string, d: string)
    requires AllReach(services, visiting, code) && d in Dependencies(services, code)
    ensures AllReach(services, visiting + {code}, d)
  {
    hide Reaches, Dependencies;
    ReachesItself(services, code);
    forall v | v in visiting + {code} ensures Reaches(services, v, d) {
      ReachesOn(services, v, code, d);
    }
  }

  lemma AddsOn(services: seq<Service>, code: string, d: string, before: seq<string>, mid: seq<string>, out: seq<string>)
    requires d in Dependencies(services, code) && Adds(services, code, before, mid) && Adds(services, d, mid, out)
    ensures Adds(services, code, before, out)
  {
    hide Reaches, Dependencies;
    forall c | c in out && c !in before ensures Reaches(services, code, c) {
      if c !in mid {
        ReachesFirst(services, code, d, c);
      }
    }
  }

  lemma AddsItself(services: seq<Service>, code: string, before: seq<string>, out: seq<string>)
    requires Adds(services, code, before, out)
    ensures Adds(services, code, before, out + [code])
  {
    hide Reaches;
    ReachesItself(services, code);
  }

  lemma InUniverse(services: seq<Service>, universe: set<string>, code: string, d: string)
    requires Universe(services, universe) && code in universe && d in Dependencies(services, code)
    ensures d in universe
  {
    hide Dependencies;
  }

  /** The codes left to meet get fewer on the way down, so the recursion ends on every graph. */
  lemma Shrinks(universe: set<string>, visiting: set<string>, seen0: set<string>, seen: set<string>, code: string)
    requires code in universe && code !in visiting && code !in seen0 && seen0 <= seen
    ensures |universe - (visiting + {code}) - seen| < |universe - visiting - seen0|
  {
    var a, b := universe - (visiting + {code}) - seen, universe - visiting - seen0;
    assert a <= b && code in b && code !in a;
    Smaller(a, b);
  }

  lemma BeforeExtends<T(!new)>(list: seq<T>, more: seq<T>, first: T, second: T)
    requires Before(list, first, second)
    ensures Before(list + more, first, second)
  {
    var i, j :| 0 <= i < j < |list| && list[i] == first && list[j] == second;
    assert (list + more)[i] == first && (list + more)[j] == second;
  }

  lemma PushKeepsOrder(services: seq<Service>, out: seq<string>, code: string, seen: set<string>, visiting: set<string>)
    requires DependencyFirst(services, out) && forall c :: c in seen <==> c in out
    requires forall d :: d in Dependencies(services, code) ==> d in seen || d in visiting
    requires forall v :: v in visiting ==> Reaches(services, v, code)
    ensures DependencyFirst(services, out + [code])
  {
    hide Reaches, Before, Dependencies;
    forall c, d | c in out + [code] && d in Dependencies(services, c)
      ensures Before(out + [code], d, c) || Reaches(services, d, c)
    {
      if c in out {
        if Before(out, d, c) {
          BeforeExtends(out, [code], d, c);
        }
      } else if d in out {
        BeforeLast(out, d, code);
      }
    }
  }

  lemma BeforeLast<T(!new)>(list: seq<T>, first: T, last: T)
    requires first in list
    ensures Before(list + [last], first, last)
  {
    var i :| 0 <= i < |list| && list[i] == first;
    assert (list + [last])[i] == first && (list + [last])[|list|] == last;
  }

  lemma Smaller<T>(a: set<T>, b: set<T>)
    requires a < b
    ensures |a| < |b|
  {
    assert b == a + (b - a);
    assert |b - a| > 0;
  }

  /** Every code some service depends on. */
  function Mentioned(services: seq<Service>): set<string> {
    if services == [] then {}
    else Mentioned(services[..|services| - 1]) + CodeSet(services[|services| - 1].dependsOn)
  }

  function CodeSet(codes: seq<string>): set<string> {
    set c | c in codes
  }

  lemma {:induction false} DependenciesAreMentioned(services: seq<Service>, code: string)
    ensures forall d :: d in Dependencies(services, code) ==> d in Mentioned(services)
  {
    if services != [] && services[|services| - 1].code != code {
      DependenciesAreMentioned(services[..|services| - 1], code);
    }
  }

  /** The requested codes with everything they need: each once, nothing else, and every dependency
      before its dependent unless the two depend on each other. */
  ghost predicate Expands(services: seq<Service>, codes: seq<string>, out: seq<string>) {
    && Distinct(out)
    && (forall c :: c in codes ==> c in out)
    && (forall c, d :: c in out && d in Dependencies(services, c) ==> d in out)
    && FromRequested(services, codes, out)
    && DependencyFirst(services, out)
  }

  lemma ExpansionDone(services: seq<Service>, codes: seq<string>, out: seq<string>, seen: set<string>)
    requires Visited(services, out, seen, {}) && Handled(codes, seen, {}) && FromRequested(services, codes, out)
    ensures Expands(services, codes, out)
  {
    hide Dependencies, FromRequested, DependencyFirst, Distinct;
  }

  lemma UniverseOf(services: seq<Service>, codes: seq<string>)
    ensures Universe(services, Mentioned(services) + CodeSet(codes))
    ensures forall c :: c in codes ==> c in Mentioned(services) + CodeSet(codes)
  {
    hide Mentioned;
    forall c, d | c in Mentioned(services) + CodeSet(codes) && d in Dependencies(services, c)
      ensures d in Mentioned(services)
    {
      DependenciesAreMentioned(services, c);
    }
  }

  method ExpandWithDependencies(services: seq<Service>, codes: seq<string>) returns (out: seq<string>)
    ensures Expands(services, codes, out) && out == Expanded(services, codes)
  {
    hide Visited, Handled, FromRequested, Universe, Adds, AllReach, Expands, VisitAll, VisitOne;
    ghost var universe := Mentioned(services) + CodeSet(codes);
    UniverseOf(services, codes);
    NothingHandled({}, {});
    NothingRequested(services, codes);
    VisitNothing(services, [], {}, universe);
    var expansion := new Expansion(services);
    for i := 0 to |codes|
      invariant expansion.services == services && fresh(expansion) && expansion.visiting == {}
      invariant Visited(services, expansion.out, expansion.seen, {})
      invariant Handled(codes[..i], expansion.seen, {})
      invariant FromRequested(services, codes, expansion.out)
      invariant expansion.out == VisitAll(services, codes[..i], [], {}, universe)
    {
      VisitNext(services, codes, i, [], {}, universe);
      ghost var out0, seen0 := expansion.out, expansion.seen;
      NobodyOnStack(services, codes[i]);
      expansion.Visit(codes[i], universe);
      HandledOn(codes, i, seen0, expansion.seen, {});
      StillRequested(services, codes, i, out0, expansion.out);
    }
    assert codes[..|codes|] == codes;
    ExpansionDone(services, codes, expansion.out, expansion.seen);
    out := expansion.out;
  }

  lemma NothingRequested(services: seq<Service>, codes: seq<string>)
    ensures FromRequested(services, codes, [])
  {
  }

  lemma NobodyOnStack(services: seq<Service>, code: string)
    ensures AllReach(services, {}, code)
  {
  }

  ghost predicate FromRequested(services: seq<Service>, codes: seq<string>, out: seq<string>) {
    forall c :: c in out ==> exists r :: r in codes && Reaches(services, r, c)
  }

  lemma StillRequested(services: seq<Service>, codes: seq<string>, i: nat, before: seq<string>, out: seq<string>)
    requires i < |codes| && FromRequested(services, codes, before) && Adds(services, codes[i], before, out)
    ensures FromRequested(services, codes, out)
  {
    hide Reaches;
  }

  // ----- Tiers -----

  datatype OrderedTier = OrderedTier(tier: nat, services: seq<Service>)

  /** `new Map(codes.map((code, index) => [code, index])).get(code) ?? 0`. */
  function CodeOrder(codes: seq<string>, code: string): nat {
    if codes == [] then 0
    else if codes[|codes| - 1] == code then |codes| - 1
    else CodeOrder(codes[..|codes| - 1], code)
  }

  predicate InOrder(services: seq<Service>, codes: seq<string>) {
    forall i, j :: 0 <= i < j < |services| ==> CodeOrder(codes, services[i].code) <= CodeOrder(codes, services[j].code)
  }

  function InsertInOrder(s: Service, services: seq<Service>, codes: seq<string>): seq<Service> {
    if services == [] || CodeOrder(codes, s.code) <= CodeOrder(codes, services[0].code) then [s] + services
    else [services[0]] + InsertInOrder(s, services[1..], codes)
  }

  /** The stable sort of a tier by the order of the codes. */
  function SortInOrder(services: seq<Service>, codes: seq<string>): seq<Service> {
    if services == [] then [] else InsertInOrder(services[0], SortInOrder(services[1..], codes), codes)
  }

  lemma {:induction false} InsertInOrderPermutes(s: Service, services: seq<Service>, codes: seq<string>)
    ensures multiset(InsertInOrder(s, services, codes)) == multiset(services) + multiset{s}
  {
    if services != [] && CodeOrder(codes, s.code) > CodeOrder(codes, services[0].code) {
      assert services == [services[0]] + services[1..];
      InsertInOrderPermutes(s, services[1..], codes);
    }
  }

  lemma InOrderCons(s: Service, rest: seq<Service>, codes: seq<string>)
    requires InOrder(rest, codes)
    requires forall t :: t in rest ==> CodeOrder(codes, s.code) <= CodeOrder(codes, t.code)
    ensures InOrder([s] + rest, codes)
  {
    hide CodeOrder;
  }

  lemma {:induction false} InsertInOrderSorts(s: Service, services: seq<Service>, codes: seq<string>)
    requires InOrder(services, codes)
    ensures InOrder(InsertInOrder(s, services, codes), codes)
  {
    hide CodeOrder;
    if services == [] || CodeOrder(codes, s.code) <= CodeOrder(codes, services[0].code) {
      InOrderCons(s, services, codes);
    } else {
      InsertInOrderSorts(s, services[1..], codes);
      InsertInOrderPermutes(s, services[1..], codes);
      var rest := InsertInOrder(s, services[1..], codes);
      forall t | t in rest ensures CodeOrder(codes, services[0].code) <= CodeOrder(codes, t.code) {
        assert t in multiset(rest);
        assert t == s || t in services[1..];
      }
      InOrderCons(services[0], rest, codes);
    }
  }

  lemma {:induction false} SortInOrderSorts(services: seq<Service>, codes: seq<string>)
    ensures InOrder(SortInOrder(services, codes), codes)
    ensures multiset(SortInOrder(services, codes)) == multiset(services)
  {
    if services != [] {
      hide CodeOrder, InOrder, InsertInOrder;
      SortInOrderSorts(services[1..], codes);
      InsertInOrderSorts(services[0], SortInOrder(services[1..], codes), codes);
      InsertInOrderPermutes(services[0], SortInOrder(services[1..], codes), codes);
      assert services == [services[0]] + services[1..];
    }
  }

  /** The selected services of one tier, in catalog order. */
  function InTier(services: seq<Service>, codes: seq<string>, tier: nat): seq<Service> {
    if services == [] then []
    else
      var last := services[|services| - 1];
      InTier(services[..|services| - 1], codes, tier)
      + if last.code in codes && StartTier(last) == tier then [last] else []
  }

  function Selected(services: seq<Service>, codes: seq<string>): seq<Service> {
    if services == [] then []
    else
      var last := services[|services| - 1];
      Selected(services[..|services| - 1], codes) + if last.code in codes then [last] else []
  }

  /** The tiers ascend, each is the selection of its tier in code order, and none is missing. */
  ghost predicate StartOrder(services: seq<Service>, codes: seq<string>, tiers: seq<OrderedTier>) {
    && (forall i, j :: 0 <= i < j < |tiers| ==> tiers[i].tier < tiers[j].tier)
    && (forall i :: 0 <= i < |tiers| ==>
          tiers[i].services == SortInOrder(InTier(services, codes, tiers[i].tier), codes) && tiers[i].services != [])
    && (forall t :: InTier(services, codes, t) != [] ==> exists i :: 0 <= i < |tiers| && tiers[i].tier == t)
  }

  ghost predicate Buckets(services: seq<Service>, codes: seq<string>, buckets: map<nat, seq<Service>>) {
    forall t :: (t in buckets <==> InTier(services, codes, t) != [])
             && (t in buckets ==> buckets[t] == InTier(services, codes, t))
  }

  lemma InTierSnoc(services: seq<Service>, codes: seq<string>, i: nat)
    requires i < |services|
    ensures forall t :: InTier(services[..i + 1], codes, t)
                     == InTier(services[..i], codes, t)
                        + if services[i].code in codes && StartTier(services[i]) == t then [services[i]] else []
  {
    assert services[..i + 1][..i] == services[..i];
  }

  lemma SmallestOf(s: set<nat>) returns (x: nat)
    requires s != {}
    ensures x in s && forall y :: y in s ==> x <= y
    decreases s
  {
    x :| x in s;
    if s - {x} != {} {
      var y := SmallestOf(s - {x});
      forall z | z in s ensures (if y < x then y else x) <= z {
        assert z == x || z in s - {x};
      }
      x := if y < x then y else x;
    } else {
      assert forall z :: z in s ==> z == x by {
        forall z | z in s ensures z == x {
          assert z == x || z in s - {x};
        }
      }
    }
  }

  method FillBuckets(services: seq<Service>, codes: seq<string>) returns (buckets: map<nat, seq<Service>>)
    ensures Buckets(services, codes, buckets)
  {
    buckets := map[];
    for i := 0 to |services|
      invariant Buckets(services[..i], codes, buckets)
    {
      var svc := services[i];
      InTierSnoc(services, codes, i);
      hide InTier;
      if svc.code in codes {
        var tier := StartTier(svc);
        buckets := buckets[tier := (if tier in buckets then buckets[tier] else []) + [svc]];
      }
    }
    assert services[..|services|] == services;
  }

  /** Tiers ascending, each sorted; every bucket appears. */
  ghost predicate Listed(buckets: map<nat, seq<Service>>, codes: seq<string>, tiers: seq<OrderedTier>, left: set<nat>) {
    && left <= buckets.Keys
    && (forall i, j :: 0 <= i < j < |tiers| ==> tiers[i].tier < tiers[j].tier)
    && (forall i, t :: 0 <= i < |tiers| && t in left ==> tiers[i].tier < t)
    && (forall i :: 0 <= i < |tiers| ==>
          tiers[i].tier in buckets && tiers[i].services == SortInOrder(buckets[tiers[i].tier], codes))
    && (forall t :: t in buckets && t !in left ==> exists i :: 0 <= i < |tiers| && tiers[i].tier == t)
  }

  lemma ListedOn(buckets: map<nat, seq<Service>>, codes: seq<string>, tiers: seq<OrderedTier>, left: set<nat>,
      tier: nat)
    requires Listed(buckets, codes, tiers, left) && tier in left && forall t :: t in left ==> tier <= t
    ensures Listed(buckets, codes, tiers + [OrderedTier(tier, SortInOrder(buckets[tier], codes))], left - {tier})
  {
    hide SortInOrder;
    var longer := tiers + [OrderedTier(tier, SortInOrder(buckets[tier], codes))];
    assert longer[|tiers|].tier == tier;
    forall t | t in buckets && t !in left - {tier} ensures exists i :: 0 <= i < |longer| && longer[i].tier == t {
      if t != tier {
        var i :| 0 <= i < |tiers| && tiers[i].tier == t;
        assert longer[i].tier == t;
      }
    }
  }

  lemma ListedIsStartOrder(services: seq<Service>, codes: seq<string>, buckets: map<nat, seq<Service>>,
                           tiers: seq<OrderedTier>)
    requires Buckets(services, codes, buckets) && Listed(buckets, codes, tiers, {})
    ensures StartOrder(services, codes, tiers)
  {
    hide SortInOrder, InTier;
    forall i | 0 <= i < |tiers| ensures tiers[i].services != [] {
      SortInOrderSorts(buckets[tiers[i].tier], codes);
      assert |multiset(tiers[i].services)| == |tiers[i].services|;
      assert |multiset(buckets[tiers[i].tier])| == |buckets[tiers[i].tier]|;
    }
  }

  method OrderForStart(services: seq<Service>, codes: seq<string>) returns (tiers: seq<OrderedTier>)
    ensures StartOrder(services, codes, tiers)
  {
    var buckets := FillBuckets(services, codes);
    hide Buckets, SortInOrder;
    tiers := [];
    var left := buckets.Keys;
    while left != {}
      invariant Listed(buckets, codes, tiers, left)
      decreases left
    {
      ghost var smallest := SmallestOf(left);
      var tier :| tier in left && forall t :: t in left ==> tier <= t;
      ListedOn(buckets, codes, tiers, left, tier);
      tiers := tiers + [OrderedTier(tier, SortInOrder(buckets[tier], codes))];
      left := left - {tier};
    }
    ListedIsStartOrder(services, codes, buckets, tiers);
  }

  // ----- What the start order promises -----

  function Flatten(tiers: seq<OrderedTier>): seq<Service> {
    if tiers == [] then [] else Flatten(tiers[..|tiers| - 1]) + tiers[|tiers| - 1].services
  }

  lemma FlattenLast(tiers: seq<OrderedTier>)
    requires tiers != []
    ensures Flatten(tiers) == Flatten(tiers[..|tiers| - 1]) + tiers[|tiers| - 1].services
  {
  }

  /** The rows of the listed tiers, together. */
  function Together(services: seq<Service>, codes: seq<string>, tiers: seq<nat>): multiset<Service> {
    if tiers == [] then multiset{}
    else Together(services, codes, tiers[..|tiers| - 1]) + multiset(InTier(services, codes, tiers[|tiers| - 1]))
  }

  lemma {:induction false} TogetherOn(services: seq<Service>, codes: seq<string>, tiers: seq<nat>)
    requires services != [] && forall i, j :: 0 <= i < j < |tiers| ==> tiers[i] < tiers[j]
    ensures var last := services[|services| - 1];
      Together(services, codes, tiers) == Together(services[..|services| - 1], codes, tiers)
        + if last.code in codes && StartTier(last) in tiers then multiset{last} else multiset{}
    decreases |tiers|
  {
    if tiers != [] {
      hide StartTier, InTier, Together;
      var front, t := tiers[..|tiers| - 1], tiers[|tiers| - 1];
      assert tiers == front + [t];
      TogetherOn(services, codes, front);
      InTierLast(services, codes, t);
      TogetherSnoc(services, codes, front, t);
      TogetherSnoc(services[..|services| - 1], codes, front, t);
      AddOne(services[|services| - 1], codes, front, t,
             Together(services[..|services| - 1], codes, front),
             multiset(InTier(services[..|services| - 1], codes, t)));
    }
  }

  lemma TogetherSnoc(services: seq<Service>, codes: seq<string>, front: seq<nat>, t: nat)
    ensures Together(services, codes, front + [t])
        == Together(services, codes, front) + multiset(InTier(services, codes, t))
  {
    hide InTier;
    assert (front + [t])[..|front|] == front;
  }

  lemma AddOne(s: Service, codes: seq<string>, front: seq<nat>, t: nat, a: multiset<Service>, b: multiset<Service>)
    requires t !in front
    ensures (a + if s.code in codes && StartTier(s) in front then multiset{s} else multiset{})
            + (b + if s.code in codes && StartTier(s) == t then multiset{s} else multiset{})
         == (a + b) + if s.code in codes && StartTier(s) in front + [t] then multiset{s} else multiset{}
  {
    hide StartTier;
  }

  lemma InTierLast(services: seq<Service>, codes: seq<string>, t: nat)
    requires services != []
    ensures var last := services[|services| - 1];
      multiset(InTier(services, codes, t)) == multiset(InTier(services[..|services| - 1], codes, t))
        + if last.code in codes && StartTier(last) == t then multiset{last} else multiset{}
  {
    hide StartTier;
  }

  lemma {:induction false} NothingTogether(codes: seq<string>, tiers: seq<nat>)
    ensures Together([], codes, tiers) == multiset{}
    decreases |tiers|
  {
    if tiers != [] {
      NothingTogether(codes, tiers[..|tiers| - 1]);
    }
  }

  lemma {:induction false} TogetherIsSelected(services: seq<Service>, codes: seq<string>, tiers: seq<nat>)
    requires forall i, j :: 0 <= i < j < |tiers| ==> tiers[i] < tiers[j]
    requires forall s :: s in services && s.code in codes ==> StartTier(s) in tiers
    ensures Together(services, codes, tiers) == multiset(Selected(services, codes))
    decreases |services|
  {
    if services == [] {
      NothingTogether(codes, tiers);
    } else {
      hide StartTier;
      var front := services[..|services| - 1];
      assert services == front + [services[|services| - 1]];
      TogetherOn(services, codes, tiers);
      TogetherIsSelected(front, codes, tiers);
    }
  }

  lemma {:induction false} InTierHolds(services: seq<Service>, codes: seq<string>, t: nat, s: Service)
    ensures s in InTier(services, codes, t) <==> s in services && s.code in codes && StartTier(s) == t
  {
    if services != [] {
      hide StartTier;
      var front, last := services[..|services| - 1], services[|services| - 1];
      assert services == front + [last];
      InTierHolds(front, codes, t, s);
    }
  }

  function TierNumbers(tiers: seq<OrderedTier>): seq<nat> {
    seq(|tiers|, i requires 0 <= i < |tiers| => tiers[i].tier)
  }

  lemma {:induction false} FlattenIsTogether(services: seq<Service>, codes: seq<string>, tiers: seq<OrderedTier>)
    requires forall i ::
        0 <= i < |tiers| ==> tiers[i].services == SortInOrder(InTier(services, codes, tiers[i].tier), codes)
    ensures multiset(Flatten(tiers)) == Together(services, codes, TierNumbers(tiers))
    decreases |tiers|
  {
    if tiers != [] {
      hide InTier, SortInOrder, Flatten, Together, InOrder, CodeOrder;
      var front, last := tiers[..|tiers| - 1], tiers[|tiers| - 1];
      FlattenIsTogether(services, codes, front);
      SortInOrderSorts(InTier(services, codes, last.tier), codes);
      FlattenLast(tiers);
      TogetherSnoc(services, codes, TierNumbers(front), last.tier);
      assert TierNumbers(tiers) == TierNumbers(front) + [last.tier];
    } else {
      hide InTier, SortInOrder;
    }
  }

  /** Every selected service is started exactly as often as the catalog lists it, and no other. */
  lemma StartOrderIsPermutation(services: seq<Service>, codes: seq<string>, tiers: seq<OrderedTier>)
    requires StartOrder(services, codes, tiers)
    ensures multiset(Flatten(tiers)) == multiset(Selected(services, codes))
  {
    hide InTier, SortInOrder, Selected, Together, StartTier;
    FlattenIsTogether(services, codes, tiers);
    var numbers := TierNumbers(tiers);
    forall s | s in services && s.code in codes ensures StartTier(s) in numbers {
      InTierHolds(services, codes, StartTier(s), s);
      var i :| 0 <= i < |tiers| && tiers[i].tier == StartTier(s);
      assert numbers[i] == StartTier(s);
    }
    TogetherIsSelected(services, codes, numbers);
  }

  /** Tiers ascend, and inside a tier the codes keep their order. */
  predicate StartSorted(list: seq<Service>, codes: seq<string>) {
    forall i, j :: 0 <= i < j < |list| ==>
      || StartTier(list[i]) < StartTier(list[j])
      || (StartTier(list[i]) == StartTier(list[j]) && CodeOrder(codes, list[i].code) <= CodeOrder(codes, list[j].code))
  }

  lemma {:induction false} FlattenSorted(services: seq<Service>, codes: seq<string>, tiers: seq<OrderedTier>,
      bound: nat)
    requires forall i, j :: 0 <= i < j < |tiers| ==> tiers[i].tier < tiers[j].tier
    requires forall i ::
        0 <= i < |tiers| ==> tiers[i].services == SortInOrder(InTier(services, codes, tiers[i].tier), codes)
    requires forall i :: 0 <= i < |tiers| ==> tiers[i].tier < bound
    ensures StartSorted(Flatten(tiers), codes)
    ensures forall s :: s in Flatten(tiers) ==> StartTier(s) < bound
    decreases |tiers|
  {
    if tiers != [] {
      hide InTier, SortInOrder, StartTier, CodeOrder;
      var front, last := tiers[..|tiers| - 1], tiers[|tiers| - 1];
      FlattenSorted(services, codes, front, last.tier);
      SortInOrderSorts(InTier(services, codes, last.tier), codes);
      forall s | s in last.services ensures StartTier(s) == last.tier {
        assert s in multiset(last.services);
        InTierHolds(services, codes, last.tier, s);
      }
      SortedConcat(Flatten(front), last.services, codes, last.tier);
    }
  }

  lemma SortedConcat(a: seq<Service>, b: seq<Service>, codes: seq<string>, tier: nat)
    requires StartSorted(a, codes) && InOrder(b, codes)
    requires forall s :: s in a ==> StartTier(s) < tier
    requires forall s :: s in b ==> StartTier(s) == tier
    ensures StartSorted(a + b, codes)
  {
    hide StartTier, CodeOrder;
    var list := a + b;
    forall i, j | 0 <= i < j < |list|
      ensures StartTier(list[i]) < StartTier(list[j])
           || (StartTier(list[i]) == StartTier(list[j])
             && CodeOrder(codes, list[i].code) <= CodeOrder(codes, list[j].code))
    {
      if j >= |a| {
        assert list[j] == b[j - |a|] && list[j] in b;
        if i < |a| {
          assert list[i] == a[i] && list[i] in a;
        } else {
          assert list[i] == b[i - |a|] && list[i] in b;
        }
      } else {
        assert list[i] == a[i] && list[j] == a[j];
      }
    }
  }

  lemma StartOrderIsSorted(services: seq<Service>, codes: seq<string>, tiers: seq<OrderedTier>)
    requires StartOrder(services, codes, tiers)
    ensures StartSorted(Flatten(tiers), codes)
  {
    hide InTier, SortInOrder, StartTier, CodeOrder;
    if tiers != [] {
      FlattenSorted(services, codes, tiers, tiers[|tiers| - 1].tier + 1);
    }
  }

  lemma {:induction false} CodeOrderIs(codes: seq<string>, i: nat)
    requires Distinct(codes) && i < |codes|
    ensures CodeOrder(codes, codes[i]) == i
    decreases |codes|
  {
    if i < |codes| - 1 {
      CodeOrderIs(codes[..|codes| - 1], i);
    }
  }

  // ----- The expansion without cycles -----

  /** Every dependency comes before each of its dependents. */
  ghost predicate Topological(services: seq<Service>, out: seq<string>) {
    forall c, d :: c in out && d in Dependencies(services, c) ==> Before(out, d, c)
  }

  /** No listed code depends, directly or indirectly, on itself. */
  ghost predicate Acyclic(services: seq<Service>, out: seq<string>) {
    forall c, d :: c in out && d in Dependencies(services, c) ==> !Reaches(services, d, c)
  }

  lemma BeforeIsLower(out: seq<string>, d: string, c: string)
    requires Distinct(out) && Before(out, d, c)
    ensures CodeOrder(out, d) < CodeOrder(out, c)
  {
    var i, j :| 0 <= i < j < |out| && out[i] == d && out[j] == c;
    CodeOrderIs(out, i);
    CodeOrderIs(out, j);
  }

  lemma ComesBefore(out: seq<string>, d: string, c: string)
    requires Before(out, d, c)
    ensures d in out && c in out
  {
  }

  /** In a topological list a path never leads to a later place. */
  lemma {:induction false} PathsLeadBack(services: seq<Service>, out: seq<string>, path: seq<string>)
    requires Topological(services, out) && Distinct(out) && IsPath(services, path) && path[0] in out
    ensures path[|path| - 1] in out && CodeOrder(out, path[|path| - 1]) <= CodeOrder(out, path[0])
    decreases |path|
  {
    hide CodeOrder, Dependencies, Before;
    if |path| > 1 {
      var front := path[..|path| - 1];
      PathFront(services, path);
      PathsLeadBack(services, out, front);
      BeforeIsLower(out, path[|path| - 1], front[|front| - 1]);
      ComesBefore(out, path[|path| - 1], front[|front| - 1]);
    }
  }

  /** The expansion puts every dependency before its dependents if and only if none of the listed codes
      depends on itself. */
  lemma TopologicalIffAcyclic(services: seq<Service>, codes: seq<string>, out: seq<string>)
    requires Expands(services, codes, out)
    ensures Topological(services, out) <==> Acyclic(services, out)
  {
    hide CodeOrder, Dependencies, Before, FromRequested;
    if Topological(services, out) {
      forall c, d | c in out && d in Dependencies(services, c) ensures !Reaches(services, d, c) {
        BeforeIsLower(out, d, c);
        forall path | IsPath(services, path) && path[0] == d ensures path[|path| - 1] != c {
          PathsLeadBack(services, out, path);
        }
      }
    }
  }

  const SELF := Service("a", None, false, ["a"])

  /** A service that depends on itself is expanded, and not before itself. */
  lemma SelfDependencyIsNotFirst(out: seq<string>)
    requires Expands([SELF], ["a"], out)
    ensures out == ["a"] && !Topological([SELF], out)
  {
    hide Dependencies, Reaches, Universe, DependencyFirst;
    SelfNeedsSelf();
    assert ["a"][0] == "a";
    forall c | c in out ensures c in {"a"} {
      ReachesWithin([SELF], {"a"}, "a", c);
    }
    DistinctCount(out, {"a"});
    assert "a" in Dependencies([SELF], "a") && !Before(["a"], "a", "a");
  }

  lemma SelfNeedsSelf()
    ensures Dependencies([SELF], "a") == ["a"] && Universe([SELF], {"a"})
  {
    assert [SELF][0] == SELF && [SELF][..0] == [];
  }

  /** A dependency that the expansion lists first starts before its dependent exactly when its tier
      is not the higher one: the tier wins over the dependency. */
  lemma {:induction false} DependencyStartsFirst(services: seq<Service>, codes: seq<string>, out: seq<string>,
                                                tiers: seq<OrderedTier>, i: nat, j: nat)
    requires Expands(services, codes, out) && StartOrder(services, out, tiers)
    requires i < |Flatten(tiers)| && j < |Flatten(tiers)|
    requires var dependency, dependent := Flatten(tiers)[i], Flatten(tiers)[j];
      && dependency.code in Dependencies(services, dependent.code) && dependent.code in out
      && !Reaches(services, dependency.code, dependent.code)
    ensures i < j <==> StartTier(Flatten(tiers)[i]) <= StartTier(Flatten(tiers)[j])
  {
    hide Flatten, StartTier, CodeOrder, StartOrder, Reaches, Dependencies;
    var dependency, dependent := Flatten(tiers)[i], Flatten(tiers)[j];
    assert Before(out, dependency.code, dependent.code);
    var a, b :| 0 <= a < b < |out| && out[a] == dependency.code && out[b] == dependent.code;
    CodeOrderIs(out, a);
    CodeOrderIs(out, b);
    StartOrderIsSorted(services, out, tiers);
  }

  /** What decides a service's place: its project, or its own code if it has none. */
  function PlatformOf(s: Service): string {
    match s.project
    case None => s.code
    case Some(project) => project
  }

  predicate OnPlatform(s: Service) {
    PlatformOf(s) in {"infra", "cernere", "corpus"}
  }

  /** In the start order infra comes before cernere, cernere before corpus, these before the services that
      use the corpus, and those before all others. */
  lemma PlatformStartsFirst(services: seq<Service>, codes: seq<string>, tiers: seq<OrderedTier>, i: nat, j: nat)
    requires StartOrder(services, codes, tiers) && i < |Flatten(tiers)| && j < |Flatten(tiers)|
    ensures var a, b := Flatten(tiers)[i], Flatten(tiers)[j];
      && (PlatformOf(a) == "infra" && PlatformOf(b) != "infra" ==> i < j)
      && (PlatformOf(a) == "cernere" && PlatformOf(b) !in {"infra", "cernere"} ==> i < j)
      && (PlatformOf(a) == "corpus" && !OnPlatform(b) ==> i < j)
      && (!OnPlatform(a) && !OnPlatform(b) && a.usesCorpus && !b.usesCorpus ==> i < j)
  {
    hide Flatten, StartOrder, CodeOrder;
    StartOrderIsSorted(services, codes, tiers);
  }

  // ----- A dependency that starts last -----

  const PLAIN := Service("plain", None, false, [])
  const HUB := Service("hub", None, true, ["plain"])

  lemma {:induction false} PathStays(services: seq<Service>, codes: set<string>, path: seq<string>)
    requires Universe(services, codes) && IsPath(services, path) && path[0] in codes
    ensures path[|path| - 1] in codes
    decreases |path|
  {
    hide Dependencies;
    if |path| > 1 {
      PathFront(services, path);
      PathStays(services, codes, path[..|path| - 1]);
    }
  }

  lemma ReachesWithin(services: seq<Service>, codes: set<string>, from: string, to: string)
    requires Universe(services, codes) && from in codes
    ensures Reaches(services, from, to) ==> to in codes
  {
    if path :| IsPath(services, path) && path[0] == from && path[|path| - 1] == to {
      PathStays(services, codes, path);
    }
  }

  lemma PlainNeedsNothing()
    ensures Dependencies([PLAIN, HUB], "plain") == [] && Dependencies([PLAIN, HUB], "hub") == ["plain"]
    ensures Universe([PLAIN, HUB], {"hub", "plain"}) && Universe([PLAIN, HUB], {"plain"})
  {
    assert [PLAIN, HUB][..1] == [PLAIN] && [PLAIN][0] == PLAIN && [PLAIN, HUB][1] == HUB;
    assert ByCode([PLAIN], "plain") == Some(PLAIN) && "hub" != "plain";
    assert ByCode([PLAIN, HUB], "plain") == Some(PLAIN) && ByCode([PLAIN, HUB], "hub") == Some(HUB);
  }

  lemma BothSelected(out: seq<string>)
    requires "hub" in out && "plain" in out
    ensures Selected([PLAIN, HUB], out) == [PLAIN, HUB]
  {
    assert [PLAIN, HUB][..1] == [PLAIN] && [PLAIN][..0] == [];
    assert Selected([PLAIN], out) == [PLAIN];
    assert [PLAIN, HUB][1] == HUB && HUB.code in out;
  }

  lemma TwoOf(list: seq<Service>, a: Service, b: Service)
    requires multiset(list) == multiset([a, b]) && a != b
    ensures list == [a, b] || list == [b, a]
  {
    assert |list| == |multiset(list)| == 2;
    assert list == [list[0], list[1]];
    assert list[0] in multiset(list) && list[1] in multiset(list);
    assert multiset(list)[a] == 1 && multiset(list)[b] == 1;
  }

  lemma OnlyHubAndPlain(out: seq<string>)
    requires FromRequested([PLAIN, HUB], ["hub"], out)
    ensures forall c :: c in out ==> c in {"hub", "plain"}
  {
    hide Reaches, Dependencies;
    PlainNeedsNothing();
    forall c | c in out ensures c in {"hub", "plain"} {
      ReachesWithin([PLAIN, HUB], {"hub", "plain"}, "hub", c);
    }
  }

  lemma HubIsAfterPlain(out: seq<string>)
    requires DependencyFirst([PLAIN, HUB], out) && "hub" in out
    ensures Before(out, "plain", "hub")
  {
    hide Reaches, Before, Dependencies;
    PlainNeedsNothing();
    PlainIsApart();
    assert ["plain"][0] == "plain";
  }

  lemma HubIsListed(out: seq<string>)
    requires Expands([PLAIN, HUB], ["hub"], out)
    ensures "hub" in out && Distinct(out) && DependencyFirst([PLAIN, HUB], out)
        && FromRequested([PLAIN, HUB], ["hub"], out)
  {
    hide DependencyFirst, FromRequested, Distinct, Dependencies;
    assert ["hub"][0] == "hub";
  }

  lemma PlainIsExpandedFirst(out: seq<string>)
    requires Expands([PLAIN, HUB], ["hub"], out)
    ensures out == ["plain", "hub"]
  {
    hide *;
    HubIsListed(out);
    HubIsAfterPlain(out);
    OnlyHubAndPlain(out);
    TwoCodes(out);
  }

  /** A plain service is in tier 5 and one that uses the hub in tier 3: the plain one is expanded first
      and started last, although the other depends on it. */
  lemma DependencyStartsLast(out: seq<string>, tiers: seq<OrderedTier>)
    requires Expands([PLAIN, HUB], ["hub"], out) && StartOrder([PLAIN, HUB], out, tiers)
    ensures out == ["plain", "hub"] && Flatten(tiers) == [HUB, PLAIN]
  {
    hide CodeOrder, StartOrder, Flatten, Selected, Expands;
    PlainIsExpandedFirst(out);
    assert out[0] == "plain" && out[1] == "hub";
    BothSelected(out);
    StartOrderIsPermutation([PLAIN, HUB], out, tiers);
    StartOrderIsSorted([PLAIN, HUB], out, tiers);
    TwoOf(Flatten(tiers), PLAIN, HUB);
    assert StartTier(PLAIN) == 5 && StartTier(HUB) == 3;
  }

  lemma PlainIsApart()
    ensures !Reaches([PLAIN, HUB], "plain", "hub")
  {
    hide Reaches;
    PlainNeedsNothing();
    assert "hub" !in {"plain"};
    ReachesWithin([PLAIN, HUB], {"plain"}, "plain", "hub");
  }

  lemma {:induction false} DistinctCount(list: seq<string>, codes: set<string>)
    requires Distinct(list) && forall c :: c in list ==> c in codes
    ensures |list| <= |codes|
  {
    if list != [] {
      DistinctCount(list[..|list| - 1], codes - {list[|list| - 1]});
    }
  }

  lemma TwoCodes(out: seq<string>)
    requires Distinct(out) && (forall c :: c in out ==> c in {"hub", "plain"}) && Before(out, "plain", "hub")
    ensures out == ["plain", "hub"]
  {
    DistinctCount(out, {"hub", "plain"});
    var i, j :| 0 <= i < j < |out| && out[i] == "plain" && out[j] == "hub";
    assert |out| == 2 && i == 0 && j == 1;
  }

  // ----- The stop order -----

  function ReverseTiers(tiers: seq<OrderedTier>): seq<OrderedTier> {
    if tiers == [] then [] else [tiers[|tiers| - 1]] + ReverseTiers(tiers[..|tiers| - 1])
  }

  function OrderForStop(tiers: seq<OrderedTier>): seq<Service> {
    Flatten(ReverseTiers(tiers))
  }

  function Reverse<T>(s: seq<T>): (r: seq<T>)
    ensures |r| == |s| && forall i :: 0 <= i < |s| ==> r[i] == s[|s| - 1 - i]
  {
    if s == [] then [] else [s[|s| - 1]] + Reverse(s[..|s| - 1])
  }

  lemma {:induction false} FlattenCons(tier: OrderedTier, tiers: seq<OrderedTier>)
    ensures Flatten([tier] + tiers) == tier.services + Flatten(tiers)
    decreases |tiers|
  {
    if tiers == [] {
      assert [tier] + tiers == [tier] && [tier][..0] == [];
    } else {
      hide Flatten;
      var front := tiers[..|tiers| - 1];
      FlattenCons(tier, front);
      FlattenLast(tiers);
      FlattenLast([tier] + tiers);
      assert ([tier] + tiers)[..|tiers|] == [tier] + front;
    }
  }

  lemma StopOfFront(tiers: seq<OrderedTier>)
    requires tiers != []
    ensures OrderForStop(tiers) == tiers[|tiers| - 1].services + OrderForStop(tiers[..|tiers| - 1])
  {
    FlattenCons(tiers[|tiers| - 1], ReverseTiers(tiers[..|tiers| - 1]));
  }

  lemma ReverseConcat<T>(a: seq<T>, b: seq<T>)
    ensures Reverse(a + b) == Reverse(b) + Reverse(a)
  {
    hide Reverse;
  }

  /** No tier holds two services. */
  predicate Singletons(tiers: seq<OrderedTier>) {
    forall i :: 0 <= i < |tiers| ==> |tiers[i].services| <= 1
  }

  lemma SingletonsLast(tiers: seq<OrderedTier>)
    requires tiers != []
    ensures Singletons(tiers) <==> Singletons(tiers[..|tiers| - 1]) && |tiers[|tiers| - 1].services| <= 1
  {
  }

  /** Stopping is the exact reverse of starting only when no tier holds two services: inside a tier
      the start order is kept. */
  lemma {:induction false} StopReversesOnlySingletons(tiers: seq<OrderedTier>)
    requires forall i :: 0 <= i < |tiers| ==> Distinct(tiers[i].services)
    ensures OrderForStop(tiers) == Reverse(Flatten(tiers)) <==> Singletons(tiers)
    ensures |OrderForStop(tiers)| == |Flatten(tiers)|
    decreases |tiers|
  {
    if tiers == [] {
      assert ReverseTiers(tiers) == [];
    } else {
      hide OrderForStop, Reverse, ReverseTiers, Distinct, Flatten, Singletons;
      var front, last := tiers[..|tiers| - 1], tiers[|tiers| - 1].services;
      StopReversesOnlySingletons(front);
      SingletonsLast(tiers);
      FlattenLast(tiers);
      StopOfFront(tiers);
      ReverseConcat(Flatten(front), last);
      SameHalves(last, OrderForStop(front), Reverse(last), Reverse(Flatten(front)));
      PalindromeOfDistinct(last);
    }
  }

  lemma SameHalves<T>(a: seq<T>, b: seq<T>, c: seq<T>, d: seq<T>)
    requires |a| == |c|
    ensures a + b == c + d <==> a == c && b == d
  {
    if a + b == c + d {
      assert a == (a + b)[..|a|] && c == (c + d)[..|c|] && b == (a + b)[|a|..] && d == (c + d)[|c|..];
    }
  }

  lemma PalindromeOfDistinct<T>(s: seq<T>)
    requires Distinct(s)
    ensures s == Reverse(s) <==> |s| <= 1
  {
    hide Reverse;
    if |s| > 1 {
      assert Reverse(s)[0] == s[|s| - 1] && s[0] != s[|s| - 1];
    }
  }

  const LEFT := Service("left", None, false, [])
  const RIGHT := Service("right", None, false, [])

  const LEAVES := [LEFT, RIGHT]
  const LEAF_CODES := ["left", "right"]

  lemma LeavesSelected(t: nat)
    ensures InTier(LEAVES, LEAF_CODES, t) == if t == 5 then LEAVES else []
    ensures Selected(LEAVES, LEAF_CODES) == LEAVES
  {
    assert LEAVES[..1] == [LEFT] && [LEFT][..0] == [];
    assert LEAF_CODES[0] == "left" && LEAF_CODES[1] == "right";
    assert "left" in LEAF_CODES && "right" in LEAF_CODES;
    assert StartTier(LEFT) == 5 && StartTier(RIGHT) == 5;
    assert InTier([LEFT], LEAF_CODES, t) == if t == 5 then [LEFT] else [];
    assert Selected([LEFT], LEAF_CODES) == [LEFT];
    assert LEAVES[1] == RIGHT && RIGHT.code in LEAF_CODES;
  }

  function TierAt(tiers: seq<OrderedTier>, i: nat, other: nat): nat {
    if i < |tiers| then tiers[i].tier else other
  }

  lemma OneTier(tiers: seq<OrderedTier>)
    requires StartOrder(LEAVES, LEAF_CODES, tiers)
    ensures |tiers| == 1
  {
    hide SortInOrder, InTier;
    LeavesSelected(5);
    assert InTier(LEAVES, LEAF_CODES, 5) != [];
    forall i | 0 <= i < |tiers| ensures tiers[i].tier == 5 {
      LeavesSelected(tiers[i].tier);
      SortInOrderSorts(InTier(LEAVES, LEAF_CODES, tiers[i].tier), LEAF_CODES);
      assert |multiset(tiers[i].services)| == |tiers[i].services|;
    }
    var i :| 0 <= i < |tiers| && tiers[i].tier == 5;
    assert TierAt(tiers, 0, 5) == 5 && TierAt(tiers, 1, 6) > TierAt(tiers, 0, 5);
  }

  lemma LeafOrder()
    ensures CodeOrder(LEAF_CODES, "left") == 0 && CodeOrder(LEAF_CODES, "right") == 1
  {
    hide CodeOrder;
    assert LEAF_CODES[0] == "left" && LEAF_CODES[1] == "right" && "left" != "right";
    CodeOrderIs(LEAF_CODES, 0);
    CodeOrderIs(LEAF_CODES, 1);
  }

  lemma FlattenOne(tiers: seq<OrderedTier>)
    requires |tiers| == 1
    ensures OrderForStop(tiers) == Flatten(tiers)
  {
    assert tiers[..0] == [] && ReverseTiers(tiers) == [tiers[0]] + [];
    assert tiers == [tiers[0]];
  }

  /** Two services of one tier stop in the order in which they start. */
  lemma StopKeepsTheOrderInsideATier(tiers: seq<OrderedTier>)
    requires StartOrder(LEAVES, LEAF_CODES, tiers)
    ensures Flatten(tiers) == [LEFT, RIGHT] && OrderForStop(tiers) == [LEFT, RIGHT]
  {
    hide StartOrder, Flatten, OrderForStop, CodeOrder, Selected;
    OneTier(tiers);
    FlattenOne(tiers);
    LeavesSelected(5);
    LeafOrder();
    StartOrderIsPermutation(LEAVES, LEAF_CODES, tiers);
    StartOrderIsSorted(LEAVES, LEAF_CODES, tiers);
    TwoOf(Flatten(tiers), LEFT, RIGHT);
  }
}
