/** The factory of a browser process, and the callback that ends the process. */
module BrowserFactories {
  import opened ObjectPaths
  import opened HostLifetime

  /** A reference to a browser. */
  datatype Browser = Browser(id: nat)

  datatype Reply = Created(path: Path) | HostError | OutOfMemory

  ghost function PathsOf(hosts: map<Name, map<Path, Browser>>): map<Name, set<Path>> {
    map sender | sender in hosts :: hosts[sender].Keys
  }

  lemma PathsOfUpdate(hosts: map<Name, map<Path, Browser>>, sender: Name, controls: map<Path, Browser>)
    ensures PathsOf(hosts[sender := controls]) == PathsOf(hosts)[sender := controls.Keys]
    ensures sender in hosts ==> sender in PathsOf(hosts) && PathsOf(hosts)[sender] == hosts[sender].Keys
    ensures sender in hosts ==> PathsOf(hosts)[sender := hosts[sender].Keys] == PathsOf(hosts)
    ensures sender !in hosts ==> sender !in PathsOf(hosts)
  {
  }

  class BrowserFactory {
    /** The browsers by the sender that asked for them and by their path. */
    var hosts: map<Name, map<Path, Browser>>
    var controlCount: nat

    ghost function State(): Factory
      reads this
    {
      Factory(PathsOf(hosts), controlCount)
    }

    constructor ()
      ensures State() == INITIAL && hosts == map[]
    {
      hosts := map[];
      controlCount := 0;
    }

    /** Creates a control for a sender.  How the attempt goes, and which browser
        there is for the control, is decided elsewhere. */
    method CreateControl(sender: Name, creation: Creation, browser: Browser) returns (reply: Reply)
      requires PathsKnown(State())
      modifies this
      ensures State() == old(State()).Next(Create(sender, creation)) && PathsKnown(State())
      ensures reply ==
        if creation.NoHost? then HostError
        else if creation.Complete? then Created(ControlPath(old(controlCount)))
        else OutOfMemory
      ensures reply.Created? ==>
        hosts == old(hosts)[
          sender := (if sender in old(hosts) then old(hosts)[sender] else map[])[reply.path := browser]]
    {
      hide PathsKnown, ControlPath, PathsOf;
      StepKeepsPathsKnown(State(), Create(sender, creation));
      if creation.NoHost? {
        return HostError;
      }
      if creation.NoBrowser? {
        return OutOfMemory;
      }
      PathNotListed(sender);
      var path := ControlPath(controlCount);
      controlCount := controlCount + 1;
      if creation == NoEntry(false) {
        return OutOfMemory;
      }
      GivePlace(sender);
      if creation == NoEntry(true) {
        return OutOfMemory;
      }
      var controls := hosts[sender];
      assert path !in controls;
      PathsOfUpdate(hosts, sender, controls[path := browser]);
      assert controls[path := browser].Keys == controls.Keys + {path};
      hosts := hosts[sender := controls[path := browser]];
      reply := Created(path);
    }

    lemma PathNotListed(sender: Name)
      requires PathsKnown(State())
      ensures sender in hosts ==> ControlPath(controlCount) !in hosts[sender]
    {
      if sender in hosts {
        PathIsNew(State(), sender);
      }
    }

    /** Makes sure that the sender has a place in the table. */
    method GivePlace(sender: Name)
      modifies this`hosts
      ensures sender in hosts && hosts[sender] == if sender in old(hosts) then old(hosts)[sender] else map[]
      ensures hosts == old(hosts)[sender := hosts[sender]]
      ensures PathsOf(hosts) == old(State()).hosts[sender := old(State()).Controls(sender)]
      ensures PathsOf(hosts)[sender] == hosts[sender].Keys
    {
      var none: map<Path, Browser> := map[];
      PathsOfUpdate(hosts, sender, if sender in hosts then hosts[sender] else none);
      assert none.Keys == {};
      if sender !in hosts {
        hosts := hosts[sender := none];
      }
    }

    method RemoveHostsForOwner(id: Name) returns (erased: nat)
      modifies this`hosts
      ensures hosts == old(hosts) - {id}
      ensures erased == if id in old(hosts) then 1 else 0
    {
      erased := if id in hosts then 1 else 0;
      hosts := hosts - {id};
    }

    method HasHosts() returns (has: bool)
      ensures has <==> exists sender :: sender in hosts
    {
      has := hosts != map[];
      if has {
        var sender :| sender in hosts;
      }
    }

    /** A host has shut down; its control is forgotten if it is still known. */
    method OnHostShutdown(hostName: Name, path: Path) returns (result: bool)
      modifies this`hosts
      ensures State() == old(State()).Next(Shutdown(hostName, path))
      ensures forall sender :: sender in hosts && sender != hostName ==>
        sender in old(hosts) && hosts[sender] == old(hosts)[sender]
      ensures hostName in hosts ==> hostName in old(hosts) && hosts[hostName] == old(hosts)[hostName] - {path}
      ensures !result
    {
      if hostName !in hosts {
        return false;
      }
      var controls := hosts[hostName];
      PathsOfUpdate(hosts, hostName, controls - {path});
      assert (controls - {path}).Keys == controls.Keys - {path};
      if path !in controls {
        assert controls - {path} == controls;
        assert hosts[hostName := controls] == hosts;
        return false;
      }
      hosts := hosts[hostName := controls - {path}];
      return false;
    }
  }

  /** Some name on the bus has changed hands.  If it has no new owner the old one's
      controls go; if there are no others, both main loops are told to end. */
  method NameOwnerChanged(factory: BrowserFactory, name: Name, oldOwner: Name, newOwner: Name) returns (quit: bool)
    modifies factory`hosts
    ensures factory.State() == old(factory.State()).Next(OwnerChange(name, oldOwner, newOwner))
    ensures quit <==> old(factory.State()).Quits(OwnerChange(name, oldOwner, newOwner))
  {
    var erased := 0;
    if |newOwner| == 0 {
      erased := factory.RemoveHostsForOwner(oldOwner);
    }
    var has := factory.HasHosts();
    assert factory.State().hosts.Keys == factory.hosts.Keys;
    assert has <==> factory.State().hosts != map[];
    quit := erased > 0 && !has;
  }
}
