/** The event observers of a CDP client: who hears a notice, and what an unsubscriber takes away. */
module CdpObservers {
  import opened Options

  type Handler = nat

  /** What the function returned by a subscription holds: its name, the group it was added to (even
      when another has taken its place in the table since), and the handler. */
  datatype Subscription = Subscription(name: string, group: nat, handler: Handler)

  /** The groups ever made, and the one that the table holds for each name. */
  datatype Registry = Registry(groups: seq<seq<Handler>>, table: map<string, nat>)

  const EMPTY := Registry([], map[])

  function With(group: seq<Handler>, handler: Handler): seq<Handler> {
    if handler in group then group else group + [handler]
  }

  predicate WellFormed(reg: Registry) {
    && (forall name <- reg.table :: reg.table[name] < |reg.groups|)
    && (forall a, b :: a in reg.table && b in reg.table && reg.table[a] == reg.table[b] ==> a == b)
  }

  function Listeners(reg: Registry, name: string): seq<Handler>
    requires WellFormed(reg)
  {
    if name in reg.table then reg.groups[reg.table[name]] else []
  }

  function On(reg: Registry, name: string, handler: Handler): (Registry, Subscription)
    requires WellFormed(reg)
  {
    if name in reg.table then
      var group := reg.table[name];
      (reg.(groups := reg.groups[group := With(reg.groups[group], handler)]), Subscription(name, group, handler))
    else
      (Registry(reg.groups + [[handler]], reg.table[name := |reg.groups|]), Subscription(name, |reg.groups|, handler))
  }

  function Off(reg: Registry, sub: Subscription): Registry
    requires sub.group < |reg.groups|
  {
    var left := Without(reg.groups[sub.group], sub.handler);
    Registry(reg.groups[sub.group := left], if left == [] then reg.table - {sub.name} else reg.table)
  }

  class Observers {
    var groups: seq<seq<Handler>>
    var handlers: map<string, nat>

    function Value(): Registry
      reads this
    {
      Registry(groups, handlers)
    }

    constructor ()
      ensures Value() == EMPTY
    {
      groups, handlers := [], map[];
    }

    method Subscribe(name: string, handler: Handler) returns (unsubscribe: Subscription)
      requires WellFormed(Value())
      modifies this
      ensures (Value(), unsubscribe) == On(old(Value()), name, handler)
    {
      var group;
      if name in handlers {
        group := handlers[name];
      } else {
        group := |groups|;
        groups := groups + [[]];
      }
      if handler !in groups[group] {
        groups := groups[group := groups[group] + [handler]];
      }
      handlers := handlers[name := group];
      ghost var was := old(Value());
      assert name in was.table ==> handlers == was.table && groups == was.groups[group := With(was.groups[group], handler)];
      assert name !in was.table ==> groups == was.groups + [[handler]] by {
        assert [] + [handler] == [handler];
      }
      return Subscription(name, group, handler);
    }

    method Unsubscribe(sub: Subscription)
      requires sub.group < |groups|
      modifies this
      ensures Value() == Off(old(Value()), sub)
    {
      groups := groups[sub.group := Without(groups[sub.group], sub.handler)];
      if groups[sub.group] == [] {
        handlers := handlers - {sub.name};
      }
    }

    /** Calls the observers of a notice, each once; what one raises is swallowed, and none after it is
        kept from being called. */
    method Notify(name: string, raises: Handler -> bool) returns (called: seq<Handler>, swallowed: nat)
      requires WellFormed(Value())
      ensures called == Listeners(Value(), name)
      ensures swallowed == |Filter(raises, called)|
    {
      called, swallowed := [], 0;
      if name in handlers {
        var group := groups[handlers[name]];
        for i := 0 to |group|
          invariant called == group[..i]
          invariant swallowed == |Filter(raises, called)|
        {
          called := called + [group[i]];
          assert called[..i] == group[..i];
          if raises(group[i]) {
            swallowed := swallowed + 1;
          }
        }
      }
    }
  }

  // ---------------------------------------------------------------- one subscription, one unsubscription

  /** A subscription adds its handler to the name's observers, once, and changes no other name. */
  lemma SubscribeAdds(reg: Registry, name: string, handler: Handler)
    requires WellFormed(reg)
    ensures var (reg', sub) := On(reg, name, handler);
            && WellFormed(reg')
            && sub.name == name && sub.handler == handler && sub.group < |reg'.groups|
            && Current(reg', sub)
            && Listeners(reg', name) == With(Listeners(reg, name), handler)
            && (forall other: string :: other != name ==> Listeners(reg', other) == Listeners(reg, other))
            && (forall other <- reg.table :: other in reg'.table && reg'.table[other] == reg.table[other])
  {
    if name in reg.table {
      var group := reg.table[name];
      assert On(reg, name, handler).0.groups[group] == With(reg.groups[group], handler);
    } else {
      assert [] + [handler] == [handler];
    }
  }

  predicate Current(reg: Registry, sub: Subscription) {
    sub.name in reg.table && reg.table[sub.name] == sub.group
  }

  /** The unsubscriber should take its handler from its group, if the table still has that group. */
  ghost predicate TakesOnly(reg: Registry, sub: Subscription)
    requires WellFormed(reg) && sub.group < |reg.groups|
  {
    WellFormed(Off(reg, sub)) &&
    forall name: string ::
      Listeners(Off(reg, sub), name) ==
      if name == sub.name && Current(reg, sub) then Without(Listeners(reg, name), sub.handler) else Listeners(reg, name)
  }

  lemma TakesOnlyIff(reg: Registry, sub: Subscription)
    requires WellFormed(reg) && sub.group < |reg.groups|
    requires forall name <- reg.table :: sub.group == reg.table[name] ==> name == sub.name
    ensures TakesOnly(reg, sub) <==>
            Current(reg, sub) || Without(reg.groups[sub.group], sub.handler) != [] || Listeners(reg, sub.name) == []
  {
    if !Current(reg, sub) && Without(reg.groups[sub.group], sub.handler) == [] && Listeners(reg, sub.name) != [] {
      assert Listeners(Off(reg, sub), sub.name) != Listeners(reg, sub.name);
    }
  }

  // ---------------------------------------------------------------- runs

  datatype Step = Add(name: string, handler: Handler) | Remove(index: nat)

  /** subs are the subscriptions made, live the positions of those not yet cancelled. */
  datatype World = World(reg: Registry, subs: seq<Subscription>, live: set<nat>)

  predicate Sane(w: World) {
    && WellFormed(w.reg)
    && (forall k :: 0 <= k < |w.subs| ==> w.subs[k].group < |w.reg.groups|)
    && (forall k <- w.live :: k < |w.subs|)
    && OneName(w)
  }

  /** A group belongs to one name: the table has it for no other than its subscriptions'. */
  predicate OneName(w: World) {
    forall k, name :: 0 <= k < |w.subs| && name in w.reg.table && w.reg.table[name] == w.subs[k].group ==>
      name == w.subs[k].name
  }

  function Apply(w: World, step: Step): World
    requires Sane(w)
  {
    match step
    case Add(name, handler) =>
      var (reg, sub) := On(w.reg, name, handler);
      World(reg, w.subs + [sub], w.live + {|w.subs|})
    case Remove(k) =>
      if k < |w.subs| then w.(reg := Off(w.reg, w.subs[k]), live := w.live - {k}) else w
  }

  /** A tidy caller adds no handler that is already subscribed to the name, and cancels nothing twice. */
  predicate Tidy(w: World, step: Step)
    requires Sane(w)
  {
    match step
    case Add(name, handler) =>
      forall k <- w.live :: w.subs[k].name != name || w.subs[k].handler != handler
    case Remove(k) => k in w.live
  }

  /** The live subscriptions are those in the table's groups. */
  ghost predicate Agrees(w: World)
    requires Sane(w)
  {
    && (forall k <- w.live :: Current(w.reg, w.subs[k]) && w.subs[k].handler in Listeners(w.reg, w.subs[k].name))
    && (forall name: string, h <- Listeners(w.reg, name) :: Subscribed(w, name, h))
    && (forall j <- w.live, k <- w.live :: SameKey(w.subs[j], w.subs[k]) ==> j == k)
  }

  predicate SameKey(a: Subscription, b: Subscription) {
    a.name == b.name && a.handler == b.handler
  }

  predicate Subscribed(w: World, name: string, handler: Handler)
    requires Sane(w)
  {
    exists k <- w.live :: w.subs[k].name == name && w.subs[k].handler == handler
  }

  lemma SaneStep(w: World, step: Step)
    requires Sane(w)
    ensures Sane(Apply(w, step))
  {
    OneNameStep(w, step);
    hide OneName;
  }

  lemma OneNameStep(w: World, step: Step)
    requires Sane(w)
    ensures OneName(Apply(w, step))
  {
    hide With, Without;
  }

  lemma SubscribedMore(w: World, name: string, handler: Handler, other: string, h: Handler)
    requires Sane(w) && (Subscribed(w, other, h) || (other == name && h == handler))
    ensures Sane(Apply(w, Add(name, handler))) && Subscribed(Apply(w, Add(name, handler)), other, h)
  {
    SubscribeAdds(w.reg, name, handler);
    var w' := Apply(w, Add(name, handler));
    var k: nat :| k in w'.live && w'.subs[k].name == other && w'.subs[k].handler == h;
  }

  lemma AddedLive(w: World, name: string, handler: Handler, k: nat)
    requires Sane(w) && Agrees(w) && k in Apply(w, Add(name, handler)).live
    ensures var w' := Apply(w, Add(name, handler));
            Sane(w') && Current(w'.reg, w'.subs[k]) && w'.subs[k].handler in Listeners(w'.reg, w'.subs[k].name)
  {
    SaneStep(w, Add(name, handler));
    SubscribeAdds(w.reg, name, handler);
    hide On, OneName, Subscribed, SameKey, WellFormed;
  }

  lemma AddedDistinct(w: World, name: string, handler: Handler)
    requires Sane(w) && Agrees(w) && Tidy(w, Add(name, handler))
    ensures var w' := Apply(w, Add(name, handler));
            Sane(w') && forall j <- w'.live, k <- w'.live :: SameKey(w'.subs[j], w'.subs[k]) ==> j == k
  {
    SaneStep(w, Add(name, handler));
  }

  lemma AddAgrees(w: World, name: string, handler: Handler)
    requires Sane(w) && Agrees(w) && Tidy(w, Add(name, handler))
    ensures Sane(Apply(w, Add(name, handler))) && Agrees(Apply(w, Add(name, handler)))
  {
    SaneStep(w, Add(name, handler));
    AddedDistinct(w, name, handler);
    hide On, Listeners, Current, Tidy;
    var w' := Apply(w, Add(name, handler));
    forall k <- w'.live
      ensures Current(w'.reg, w'.subs[k]) && w'.subs[k].handler in Listeners(w'.reg, w'.subs[k].name)
    {
      AddedLive(w, name, handler, k);
    }
    forall other: string, h <- Listeners(w'.reg, other)
      ensures Subscribed(w', other, h)
    {
      SubscribedMore(w, name, handler, other, h);
    }
  }

  lemma CancelTakes(w: World, k: nat)
    requires Sane(w) && Agrees(w) && k in w.live
    ensures Sane(Apply(w, Remove(k))) && TakesOnly(w.reg, w.subs[k])
    ensures forall j <- w.live :: j != k ==> Current(Off(w.reg, w.subs[k]), w.subs[j])
  {
    var sub := w.subs[k];
    TakesOnlyIff(w.reg, sub);
    WithoutMembers(w.reg.groups[sub.group], sub.handler);
    forall j <- w.live | j != k
      ensures Current(Off(w.reg, sub), w.subs[j])
    {
      assert !SameKey(w.subs[j], sub);
    }
  }

  lemma StillHeard(w: World, k: nat, j: nat)
    requires Sane(w) && Agrees(w) && k in w.live && j in w.live && j != k && TakesOnly(w.reg, w.subs[k])
    ensures w.subs[j].handler in Listeners(Off(w.reg, w.subs[k]), w.subs[j].name)
  {
    hide Off, OneName, Subscribed;
    assert !SameKey(w.subs[j], w.subs[k]);
    WithoutMembers(Listeners(w.reg, w.subs[k].name), w.subs[k].handler);
  }

  lemma StillSubscribed(w: World, k: nat, name: string, h: Handler)
    requires Sane(w) && Agrees(w) && k in w.live && Sane(Apply(w, Remove(k))) && TakesOnly(w.reg, w.subs[k])
    requires h in Listeners(Off(w.reg, w.subs[k]), name)
    ensures Subscribed(Apply(w, Remove(k)), name, h)
  {
    hide Off, OneName;
    WithoutMembers(Listeners(w.reg, w.subs[k].name), w.subs[k].handler);
    assert Subscribed(w, name, h);
    var j :| j in w.live && w.subs[j].name == name && w.subs[j].handler == h;
    assert j != k;
    assert j in Apply(w, Remove(k)).live;
  }

  lemma RemoveAgrees(w: World, k: nat)
    requires Sane(w) && Agrees(w) && k in w.live
    ensures Sane(Apply(w, Remove(k))) && Agrees(Apply(w, Remove(k)))
  {
    SaneStep(w, Remove(k));
    CancelTakes(w, k);
    hide Off, OneName, Current, Listeners, Subscribed, TakesOnly, SameKey;
    var w' := Apply(w, Remove(k));
    forall j <- w'.live
      ensures w'.subs[j].handler in Listeners(w'.reg, w'.subs[j].name)
    {
      StillHeard(w, k, j);
    }
    forall name: string, h <- Listeners(w'.reg, name)
      ensures Subscribed(w', name, h)
    {
      StillSubscribed(w, k, name, h);
    }
  }

  predicate TidyRun(steps: seq<Step>) {
    steps == [] || (TidyRun(steps[..|steps| - 1]) && Tidy(Run(steps[..|steps| - 1]), steps[|steps| - 1]))
  }

  function Run(steps: seq<Step>): (w: World)
    ensures Sane(w)
  {
    if steps == [] then World(EMPTY, [], {})
    else
      SaneStep(Run(steps[..|steps| - 1]), steps[|steps| - 1]);
      Apply(Run(steps[..|steps| - 1]), steps[|steps| - 1])
  }

  lemma {:induction false} TidyAgrees(steps: seq<Step>)
    requires TidyRun(steps)
    ensures Agrees(Run(steps))
    decreases |steps|
  {
    if steps != [] {
      var before, last := steps[..|steps| - 1], steps[|steps| - 1];
      TidyAgrees(before);
      match last
      case Add(name, handler) => AddAgrees(Run(before), name, handler);
      case Remove(k) => RemoveAgrees(Run(before), k);
    }
  }

  /** For tidy callers a notice is heard by exactly the handlers subscribed and not yet cancelled. */
  lemma TidyIsHeard(steps: seq<Step>, name: string, handler: Handler)
    requires TidyRun(steps)
    ensures handler in Listeners(Run(steps).reg, name) <==> Subscribed(Run(steps), name, handler)
  {
    TidyAgrees(steps);
  }

  /** After any run, tidy or not, an unsubscriber takes more than its handler, namely every observer of
      the name, exactly when its own group has been dropped and is empty without the handler while the
      name has observers in a newer group. */
  lemma UnsubscribeIff(steps: seq<Step>, k: nat)
    requires k < |Run(steps).subs|
    ensures var reg, sub := Run(steps).reg, Run(steps).subs[k];
            TakesOnly(reg, sub) <==>
            Current(reg, sub) || Without(reg.groups[sub.group], sub.handler) != [] || Listeners(reg, sub.name) == []
  {
    TakesOnlyIff(Run(steps).reg, Run(steps).subs[k]);
  }

  predicate NoneTwice(group: seq<Handler>) {
    forall i, j :: 0 <= i < j < |group| ==> group[i] != group[j]
  }

  predicate AllOnce(reg: Registry) {
    forall g :: 0 <= g < |reg.groups| ==> NoneTwice(reg.groups[g])
  }

  lemma {:induction false} WithoutOnce(group: seq<Handler>, handler: Handler)
    requires NoneTwice(group)
    ensures NoneTwice(Without(group, handler))
    decreases |group|
  {
    if group != [] {
      var n := |group| - 1;
      WithoutOnce(group[..n], handler);
      WithoutMembers(group[..n], handler);
      var before, after := Without(group[..n], handler), Without(group, handler);
      forall i, j | 0 <= i < j < |after|
        ensures after[i] != after[j]
      {
        assert after[i] == before[i] && before[i] in before;
        assert j < |before| ==> after[j] == before[j];
      }
    }
  }

  lemma StepOnce(w: World, step: Step)
    requires Sane(w) && AllOnce(w.reg)
    ensures AllOnce(Apply(w, step).reg)
  {
    match step
    case Add(name, handler) =>
    case Remove(k) =>
      if k < |w.subs| {
        WithoutOnce(w.reg.groups[w.subs[k].group], w.subs[k].handler);
      }
  }

  /** Over every run a name's observers are each there once, however often it was added, so a notice
      calls each once. */
  lemma {:induction false} EachOnce(steps: seq<Step>, name: string)
    ensures AllOnce(Run(steps).reg) && NoneTwice(Listeners(Run(steps).reg, name))
    decreases |steps|
  {
    if steps != [] {
      EachOnce(steps[..|steps| - 1], name);
      StepOnce(Run(steps[..|steps| - 1]), steps[|steps| - 1]);
    }
  }

  lemma RunSnoc(steps: seq<Step>, step: Step)
    ensures Run(steps + [step]) == Apply(Run(steps), step)
  {
    assert (steps + [step])[..|steps|] == steps;
  }

  /** Cancelling twice is not tidy: the second time silences whoever has subscribed since. */
  lemma CancellingTwiceSilences(name: string, a: Handler, b: Handler)
    ensures var steps := [Add(name, a)] + [Remove(0)] + [Add(name, b)] + [Remove(0)];
            Subscribed(Run(steps), name, b) && Listeners(Run(steps).reg, name) == []
  {
    var s1 := [Add(name, a)];
    RunSnoc([], Add(name, a));
    RunSnoc(s1, Remove(0));
    RunSnoc(s1 + [Remove(0)], Add(name, b));
    RunSnoc(s1 + [Remove(0)] + [Add(name, b)], Remove(0));
    assert [] + s1 == s1;
    Renews(name, a, b);
    Silenced(name, a, b);
  }

  /** The table after the second subscription: a has left its group, b is in a new one. */
  function Renewed(name: string, a: Handler, b: Handler): World {
    World(Registry([[], [b]], map[name := 1]), [Subscription(name, 0, a), Subscription(name, 1, b)], {1})
  }

  lemma Renews(name: string, a: Handler, b: Handler)
    ensures Apply(Apply(Apply(World(EMPTY, [], {}), Add(name, a)), Remove(0)), Add(name, b)) == Renewed(name, a, b)
  {
    var sub := Subscription(name, 0, a);
    var w := World(Registry([[a]], map[name := 0]), [sub], {0});
    assert Apply(World(EMPTY, [], {}), Add(name, a)) == w;
    assert Without([a], a) == [];
    assert Apply(w, Remove(0)) == World(Registry([[]], map[]), [sub], {});
  }

  lemma Silenced(name: string, a: Handler, b: Handler)
    ensures var w := Apply(Renewed(name, a, b), Remove(0));
            Subscribed(w, name, b) && Listeners(w.reg, name) == []
  {
    assert Without([], a) == [];
    var w := Apply(Renewed(name, a, b), Remove(0));
    assert 1 in w.live && w.subs[1] == Subscription(name, 1, b);
  }
}
