/** What the fields of a backend object say, in every run of registrations, health reports and operators
    (ingress/lb.py): each is read off the events. */
module Health {
  import opened Base
  import opened BackendPool
  import opened Rebalance

  /** The event registers a node that object `o` is then leased to, new or renewed. */
  predicate LeasesTo(s: State, e: Event, o: nat)
    requires Ok(s)
  {
    e.Register? && if InPool(s.pool, (e.host, e.port)) then o == s.pool.members[Find(s.pool, (e.host, e.port)).value]
                   else o == |s.pool.objs|
  }

  /** The outcome of the newest health event or registration of the object; backends start healthy. */
  ghost function ReportedHealthy(backends: seq<Address>, es: seq<Event>, o: nat): bool
    requires Distinct(backends)
  {
    if es == [] then true
    else
      var init, e := es[..|es| - 1], es[|es| - 1];
      if e.Health? && e.obj == o && o < |Run(backends, init).pool.objs| then e.healthy
      else if LeasesTo(Run(backends, init), e, o) then true
      else ReportedHealthy(backends, init, o)
  }

  /** What the newest operator said of the object while it was in the pool; nobody is paused at first. */
  ghost function Paused(backends: seq<Address>, es: seq<Event>, o: nat): bool
    requires Distinct(backends)
  {
    if es == [] then false
    else
      var init, e := es[..|es| - 1], es[|es| - 1];
      var p := Run(backends, init).pool;
      if o >= |p.objs| then false
      else if e.SetDown? && o in p.members && p.objs[o].Address() == e.address then e.down
      else Paused(backends, init, o)
  }

  /** How many registrations the object was leased to. */
  ghost function Registrations(backends: seq<Address>, es: seq<Event>, o: nat): nat
    requires Distinct(backends)
  {
    if es == [] then 0
    else
      var init := es[..|es| - 1];
      Registrations(backends, init, o) + if LeasesTo(Run(backends, init), es[|es| - 1], o) then 1 else 0
  }

  /** The fields of the object as the events have them. */
  ghost predicate ReadOff(backends: seq<Address>, es: seq<Event>, o: nat, f: Fields)
    requires Distinct(backends)
  {
    && f.healthy == ReportedHealthy(backends, es, o)
    && f.manualDown == Paused(backends, es, o)
    && f.epoch == Registrations(backends, es, o)
    && (f.isDynamic <==> Registrations(backends, es, o) > 0)
  }

  lemma {:induction false} NoRegistrationsYet(backends: seq<Address>, es: seq<Event>, o: nat)
    requires Distinct(backends) && o >= |Run(backends, es).pool.objs|
    ensures Registrations(backends, es, o) == 0
  {
    if es != [] {
      ObjectsGrow(Run(backends, es[..|es| - 1]), es[|es| - 1], o);
      NoRegistrationsYet(backends, es[..|es| - 1], o);
    }
  }

  lemma ObjectsGrow(s: State, e: Event, o: nat)
    requires Ok(s)
    ensures |s.pool.objs| <= |Step(s, e).pool.objs|
    ensures LeasesTo(s, e, o) ==> o < |Step(s, e).pool.objs|
  {
    if e.Register? && InPool(s.pool, (e.host, e.port)) {
      assert Find(s.pool, (e.host, e.port)).Some?;
    }
  }

  /** What a step does to an object that was there. */
  lemma StepFields(s: State, e: Event, o: nat)
    requires Ok(s) && o < |s.pool.objs|
    ensures o < |Step(s, e).pool.objs|
    ensures var f, f' := s.pool.objs[o], Step(s, e).pool.objs[o];
      && f'.host == f.host && f'.port == f.port
      && f'.healthy == (if e.Health? && e.obj == o then e.healthy else LeasesTo(s, e, o) || f.healthy)
      && f'.manualDown == (if e.SetDown? && o in s.pool.members && f.Address() == e.address then e.down
                           else f.manualDown)
      && f'.isDynamic == (LeasesTo(s, e, o) || f.isDynamic)
      && f'.epoch == f.epoch + if LeasesTo(s, e, o) then 1 else 0
  {
    if e.SetDown? && Find(s.pool, e.address).Some? {
      var m := s.pool.members[Find(s.pool, e.address).value];
      if o in s.pool.members && s.pool.objs[o].Address() == e.address {
        SameMember(s.pool, o, m);
      }
    }
  }

  /** What a step makes of an object it adds. */
  lemma NewFields(s: State, e: Event, o: nat)
    requires Ok(s) && |s.pool.objs| <= o < |Step(s, e).pool.objs|
    ensures LeasesTo(s, e, o)
    ensures var f := Step(s, e).pool.objs[o]; f.healthy && !f.manualDown && f.isDynamic && f.epoch == 1
  {
  }

  /** In every run: an object is healthy as its newest health event or registration said, paused as the
      newest operator said, dynamic if it was ever registered, and its epoch counts its registrations. */
  lemma {:induction false} FieldsAreReadOff(backends: seq<Address>, es: seq<Event>, o: nat)
    requires Distinct(backends) && o < |Run(backends, es).pool.objs|
    ensures ReadOff(backends, es, o, Run(backends, es).pool.objs[o])
  {
    if es != [] {
      var init, e := es[..|es| - 1], es[|es| - 1];
      var s := Run(backends, init);
      if o < |s.pool.objs| {
        FieldsAreReadOff(backends, init, o);
        StepFields(s, e, o);
      } else {
        NewFields(s, e, o);
        NoRegistrationsYet(backends, init, o);
      }
    }
  }

  /** So after a health check a member is routable if and only if it answered and no operator paused it. */
  lemma CheckDecides(backends: seq<Address>, es: seq<Event>, o: nat, answered: bool)
    requires Distinct(backends) && o in Run(backends, es).pool.members && o < |Run(backends, es).pool.objs|
    ensures var p := Run(backends, es + [Health(o, answered)]).pool;
      && o < |p.objs| && p.objs[o].healthy == answered
      && (p.objs[o].Address() in Routable(p) <==> answered && !Paused(backends, es, o))
  {
    var e := Health(o, answered);
    assert (es + [e])[..|es|] == es;
    var p, p' := Run(backends, es).pool, Run(backends, es + [e]).pool;
    FieldsAreReadOff(backends, es + [e], o);
    MemberIsRoutable(p', o);
  }

  lemma MemberIsRoutable(p: Pool, o: nat)
    requires PoolOk(p) && o in p.members && o < |p.objs|
    ensures p.objs[o].Address() in Routable(p) <==> p.objs[o].healthy && !p.objs[o].manualDown
  {
    RoutableIs(p);
    InPoolIff(p, p.objs[o].Address());
    SameMember(p, o, p.members[Find(p, p.objs[o].Address()).value]);
  }

  /** In every run the routable addresses are those of the members whose newest report was good and whom no
      operator paused. */
  lemma RoutableByReports(backends: seq<Address>, es: seq<Event>, o: nat)
    requires Distinct(backends) && o in Run(backends, es).pool.members && o < |Run(backends, es).pool.objs|
    ensures var p := Run(backends, es).pool;
      p.objs[o].Address() in Routable(p) <==> ReportedHealthy(backends, es, o) && !Paused(backends, es, o)
  {
    FieldsAreReadOff(backends, es, o);
    MemberIsRoutable(Run(backends, es).pool, o);
  }
}
