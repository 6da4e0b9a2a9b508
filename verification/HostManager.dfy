/** The resolver's host cache and traffic switch, each function run without interruption. */
module HostManager {
  import opened HostAddress
  import opened HostNames
  import opened HostRewrite
  import opened Names
  import opened Options

  datatype Host = Host(incoming: string, namespace: string, sourceService: string, targetService: string,
                       sourceHost: string, targetHost: string, trafficAllowed: bool, disableScheduled: bool)

  /** The host a name stands for, with traffic allowed; none if the name gives no namespace. */
  function NewHost(h: Hash, name: string): Option<Host>
    requires Hexadecimal(h)
  {
    match Extract(name)
    case Found(service, namespace) =>
      var target := PrivateServiceName(h, service);
      Some(Host(name, namespace, service, target, SourceHost(name), TargetHost(name, target), true, false))
    case _ => None
  }

  /** A cluster-local name stands for its service, and its target for the private service there, exactly
      if it is read right. */
  lemma NewHostOf(h: Hash, svc: string, ns: string, port: string, path: string)
    requires Hexadecimal(h) && Parts(svc, ns, CLUSTER, port, path) && LabelChars(svc)
    ensures var name, private := HostOf(svc, ns, CLUSTER, port) + path, PrivateServiceName(h, svc);
            NewHost(h, name) == Some(Host(name, ns, svc, private, "http://" + HostOf(svc, ns, CLUSTER, port),
                                          "http://" + HostOf(private, ns, CLUSTER, port), true, false))
            <==> ReadRight("", svc, ns, port + path)
  {
    RoundTrip(h, svc, ns, port, path);
    SourceHostIs(svc, ns, CLUSTER, port, path);
  }

  function Count(present: bool): nat { if present then 1 else 0 }

  /** Exactly one timer for each name of `names`. */
  ghost predicate OnePer(timers: multiset<string>, names: set<string>) {
    forall name :: timers[name] == Count(name in names)
  }

  lemma OneMore(timers: multiset<string>, names: set<string>, name: string)
    requires OnePer(timers, names) && name !in names
    ensures OnePer(timers + multiset{name}, names + {name})
  {
  }

  lemma OneLess(timers: multiset<string>, names: set<string>, name: string)
    requires OnePer(timers, names) && name in names
    ensures OnePer(timers - multiset{name}, names - {name}) && name !in timers - multiset{name}
  {
  }

  function Scheduled(hosts: map<string, Host>): set<string> { set n | n in hosts && hosts[n].disableScheduled }

  function Blocked(hosts: map<string, Host>): set<string> { set n | n in hosts && !hosts[n].trafficAllowed }

  /** How the two sets follow a change of one host. */
  lemma SetFlags(hosts: map<string, Host>, name: string, allowed: bool, scheduled: bool)
    requires name in hosts
    ensures var after := hosts[name := hosts[name].(trafficAllowed := allowed, disableScheduled := scheduled)];
            && Scheduled(after) == (if scheduled then Scheduled(hosts) + {name} else Scheduled(hosts) - {name})
            && Blocked(after) == (if allowed then Blocked(hosts) - {name} else Blocked(hosts) + {name})
  {
  }

  /** Every cached host is the one its name stands for, apart from its flags. */
  ghost predicate Faithful(hosts: map<string, Host>, newHost: string -> Option<Host>) {
    && (forall name :: newHost(name).Some? ==> newHost(name).value.trafficAllowed && !newHost(name).value.disableScheduled)
    && (forall name :: name in hosts ==>
          newHost(name) == Some(hosts[name].(trafficAllowed := true, disableScheduled := false)))
  }

  ghost predicate Timed(hosts: map<string, Host>, disableTimers: multiset<string>, enableTimers: multiset<string>) {
    OnePer(disableTimers, Scheduled(hosts)) && OnePer(enableTimers, Blocked(hosts))
  }

  lemma FlagsKeepNames(hosts: map<string, Host>, name: string, allowed: bool, scheduled: bool, newHost: string -> Option<Host>)
    requires name in hosts && Faithful(hosts, newHost)
    ensures Faithful(hosts[name := hosts[name].(trafficAllowed := allowed, disableScheduled := scheduled)], newHost)
  {
  }

  /** Scheduling or unscheduling a host together with its disable timer. */
  lemma Reschedule(hosts: map<string, Host>, disables: multiset<string>, enables: multiset<string>, name: string, scheduled: bool)
    requires Timed(hosts, disables, enables) && name in hosts && hosts[name].disableScheduled != scheduled
    ensures Timed(hosts[name := hosts[name].(disableScheduled := scheduled)],
                  if scheduled then disables + multiset{name} else disables - multiset{name}, enables)
  {
    SetFlags(hosts, name, hosts[name].trafficAllowed, scheduled);
    if scheduled {
      OneMore(disables, Scheduled(hosts), name);
    } else {
      OneLess(disables, Scheduled(hosts), name);
    }
  }

  /** Blocking or unblocking a host together with its enable timer. */
  lemma Reallow(hosts: map<string, Host>, disables: multiset<string>, enables: multiset<string>, name: string, allowed: bool)
    requires Timed(hosts, disables, enables) && name in hosts && hosts[name].trafficAllowed != allowed
    ensures Timed(hosts[name := hosts[name].(trafficAllowed := allowed)],
                  disables, if allowed then enables - multiset{name} else enables + multiset{name})
    ensures allowed ==> name !in enables - multiset{name}
  {
    SetFlags(hosts, name, allowed, hosts[name].disableScheduled);
    if allowed {
      OneLess(enables, Blocked(hosts), name);
    } else {
      OneMore(enables, Blocked(hosts), name);
    }
  }

  /** A host not cached before, with traffic allowed and nothing scheduled, needs no timer. */
  lemma Remember(hosts: map<string, Host>, disables: multiset<string>, enables: multiset<string>, name: string, host: Host)
    requires Timed(hosts, disables, enables) && name !in hosts && host.trafficAllowed && !host.disableScheduled
    ensures Timed(hosts[name := host], disables, enables)
  {
    var after := hosts[name := host];
    assert Scheduled(after) == Scheduled(hosts) && Blocked(after) == Blocked(hosts);
  }

  class HostManager {
    var hosts: map<string, Host>
    var disableTimers: multiset<string>
    var enableTimers: multiset<string>
    const newHost: string -> Option<Host>

    /** One disable timer per scheduled host, one enable timer per blocked host, and no others; every
        cached host is the one its name stands for. */
    ghost predicate Valid()
      reads this
    {
      Timed(hosts, disableTimers, enableTimers) && Faithful(hosts, newHost)
    }

    constructor (h: Hash)
      requires Hexadecimal(h)
      ensures Valid() && hosts == map[] && forall name :: newHost(name) == NewHost(h, name)
    {
      hosts, disableTimers, enableTimers := map[], multiset{}, multiset{};
      newHost := name => NewHost(h, name);
    }

    /** The cached host, or a new one; no host is stored on an error. */
    method GetHost(requestHost: string, header: Option<string>) returns (r: Option<Host>)
      requires Valid()
      modifies this
      ensures Valid() && disableTimers == old(disableTimers) && enableTimers == old(enableTimers)
      ensures var name := if header.Some? then header.value else requestHost;
              && r == (if name in old(hosts) then Some(old(hosts)[name]) else newHost(name))
              && hosts == (if r.Some? then old(hosts)[name := r.value] else old(hosts))
    {
      var name := if header.Some? then header.value else requestHost;
      if name in hosts {
        assert hosts == hosts[name := hosts[name]];
        return Some(hosts[name]);
      }
      r := newHost(name);
      if r.Some? {
        Remember(hosts, disableTimers, enableTimers, name, r.value);
        hosts := hosts[name := r.value];
      }
    }

    method ScheduleDisableTrafficForHost(name: string)
      requires Valid()
      modifies this
      ensures Valid() && enableTimers == old(enableTimers)
      ensures if name in old(hosts) && !old(hosts)[name].disableScheduled
              then hosts == old(hosts)[name := old(hosts)[name].(disableScheduled := true)]
                   && disableTimers == old(disableTimers) + multiset{name}
              else hosts == old(hosts) && disableTimers == old(disableTimers)
    {
      if name !in hosts || hosts[name].disableScheduled {
        return;
      }
      Reschedule(hosts, disableTimers, enableTimers, name, true);
      FlagsKeepNames(hosts, name, hosts[name].trafficAllowed, true, newHost);
      hosts := hosts[name := hosts[name].(disableScheduled := true)];
      disableTimers := disableTimers + multiset{name};
    }

    /** The disable timer of `name` fires: the host is schedulable again, and blocked with exactly
        one enable timer, whether or not it was blocked before. */
    method DisableTimerFires(name: string)
      requires Valid() && name in disableTimers
      modifies this
      ensures Valid() && name in old(hosts)
      ensures hosts == old(hosts)[name := old(hosts)[name].(disableScheduled := false, trafficAllowed := false)]
      ensures disableTimers == old(disableTimers) - multiset{name}
      ensures enableTimers[name] == 1
      ensures enableTimers == if old(hosts)[name].trafficAllowed then old(enableTimers) + multiset{name} else old(enableTimers)
    {
      ClearScheduled(name);
      DisableTraffic(name);
      assert name in Blocked(hosts);
    }

    /** The first half of the disable timer's function. */
    method ClearScheduled(name: string)
      requires Valid() && name in disableTimers
      modifies this
      ensures Valid() && enableTimers == old(enableTimers) && name in old(hosts)
      ensures hosts == old(hosts)[name := old(hosts)[name].(disableScheduled := false)]
      ensures disableTimers == old(disableTimers) - multiset{name}
    {
      assert name in Scheduled(hosts);
      Reschedule(hosts, disableTimers, enableTimers, name, false);
      FlagsKeepNames(hosts, name, hosts[name].trafficAllowed, false, newHost);
      disableTimers := disableTimers - multiset{name};
      if name in hosts {
        hosts := hosts[name := hosts[name].(disableScheduled := false)];
      }
    }

    method DisableTraffic(name: string)
      requires Valid()
      modifies this
      ensures Valid() && disableTimers == old(disableTimers)
      ensures if name in old(hosts) && old(hosts)[name].trafficAllowed
              then hosts == old(hosts)[name := old(hosts)[name].(trafficAllowed := false)]
                   && enableTimers == old(enableTimers) + multiset{name}
              else hosts == old(hosts) && enableTimers == old(enableTimers)
    {
      if name in hosts && hosts[name].trafficAllowed {
        Reallow(hosts, disableTimers, enableTimers, name, false);
        FlagsKeepNames(hosts, name, false, hosts[name].disableScheduled, newHost);
        hosts := hosts[name := hosts[name].(trafficAllowed := false)];
        enableTimers := enableTimers + multiset{name};
      }
    }

    /** The enable timer of `name` fires: the host takes traffic again and no enable is left. */
    method EnableTimerFires(name: string)
      requires Valid() && name in enableTimers
      modifies this
      ensures Valid() && disableTimers == old(disableTimers)
      ensures name in old(hosts) && hosts == old(hosts)[name := old(hosts)[name].(trafficAllowed := true)]
      ensures enableTimers == old(enableTimers) - multiset{name} && name !in enableTimers
    {
      assert name in Blocked(hosts);
      Reallow(hosts, disableTimers, enableTimers, name, true);
      FlagsKeepNames(hosts, name, true, hosts[name].disableScheduled, newHost);
      enableTimers := enableTimers - multiset{name};
      if name in hosts && !hosts[name].trafficAllowed {
        hosts := hosts[name := hosts[name].(trafficAllowed := true)];
      }
    }
  }
}
