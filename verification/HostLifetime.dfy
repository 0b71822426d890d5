/** Object paths with a number at their end. */
module ObjectPaths {

  const DIGITS := "0123456789"

  function Decimal(n: nat): (s: string)
    ensures s != []
  {
    (if n < 10 then [] else Decimal(n / 10)) + [DIGITS[n % 10]]
  }

  function Value(s: string): int {
    if s == [] then 0
    else 10 * Value(s[..|s| - 1]) + (s[|s| - 1] as int - '0' as int)
  }

  lemma {:induction false} DecimalValue(n: nat)
    ensures Value(Decimal(n)) == n
  {
    var s := Decimal(n);
    assert s[|s| - 1] == DIGITS[n % 10];
    assert s[|s| - 1] as int - '0' as int == n % 10;
    if n < 10 {
      assert s[..|s| - 1] == [];
    } else {
      assert s[..|s| - 1] == Decimal(n / 10);
      DecimalValue(n / 10);
    }
  }

  function ControlPath(n: nat): string {
    "/org/openvrml/Browser/" + Decimal(n)
  }

  /** Different controls get different paths. */
  lemma ControlPathsDiffer(m: nat, n: nat)
    ensures ControlPath(m) == ControlPath(n) ==> m == n
  {
    var prefix := "/org/openvrml/Browser/";
    if ControlPath(m) == ControlPath(n) {
      assert ControlPath(m)[|prefix|..] == Decimal(m);
      assert ControlPath(n)[|prefix|..] == Decimal(n);
      DecimalValue(m);
      DecimalValue(n);
    }
  }
}

/** Which controls a browser process has, and when it may end. */
module HostLifetime {
  import opened ObjectPaths

  type Name = string
  type Path = string

  /** How the attempt to create a control went: the host cannot be reached, there
      is no memory for the browser or for the entry in the table (before or after
      the sender has got its place there), or all is well. */
  datatype Creation = NoHost | NoBrowser | NoEntry(placed: bool) | Complete

  datatype Step =
    | Create(sender: Name, creation: Creation)
    | Shutdown(sender: Name, path: Path)
    | OwnerChange(name: Name, oldOwner: Name, newOwner: Name)

  /** The controls by the sender that asked for them, and the number of paths given
      out. */
  datatype Factory = Factory(hosts: map<Name, set<Path>>, count: nat) {

    function Controls(sender: Name): set<Path> {
      if sender in hosts then hosts[sender] else {}
    }

    function Next(step: Step): Factory {
      match step
      case Create(sender, NoHost) => this
      case Create(sender, NoBrowser) => this
      case Create(sender, NoEntry(placed)) =>
        Factory(if placed then hosts[sender := Controls(sender)] else hosts, count + 1)
      case Create(sender, Complete) =>
        Factory(hosts[sender := Controls(sender) + {ControlPath(count)}], count + 1)
      case Shutdown(sender, path) =>
        if sender in hosts then Factory(hosts[sender := hosts[sender] - {path}], count) else this
      case OwnerChange(_, oldOwner, newOwner) =>
        if newOwner == [] then Factory(hosts - {oldOwner}, count) else this
    }

    /** The process is told to end. */
    predicate Quits(step: Step) {
      && step.OwnerChange? && step.newOwner == []
      && step.oldOwner in hosts && Next(step).hosts == map[]
    }
  }

  const INITIAL := Factory(map[], 0)

  function After(steps: seq<Step>): Factory {
    if steps == [] then INITIAL
    else After(steps[..|steps| - 1]).Next(steps[|steps| - 1])
  }

  /** A step gives the sender a place in the table. */
  predicate Places(step: Step, sender: Name) {
    step.Create? && step.sender == sender && (step.creation.Complete? || step.creation == NoEntry(true))
  }

  /** A step tells that a name of this owner's now has no owner. */
  predicate Releases(step: Step, owner: Name) {
    step.OwnerChange? && step.oldOwner == owner && step.newOwner == []
  }

  /** At some step the sender has got a place, and at none since has one of its names
      become free. */
  ghost predicate Present(steps: seq<Step>, sender: Name) {
    exists i :: 0 <= i < |steps| && Places(steps[i], sender)
      && forall j :: i < j < |steps| ==> !Releases(steps[j], sender)
  }

  /** An attempt to create a control that has got as far as its path. */
  predicate GivesPath(step: Step) {
    step.Create? && (step.creation.NoEntry? || step.creation.Complete?)
  }

  /** The number of paths given out. */
  function PathsGiven(steps: seq<Step>): nat {
    |set i | 0 <= i < |steps| && GivesPath(steps[i])|
  }

  /** At some step the sender has got the control with this path, numbered by the
      paths given out before, and at no step since has its host shut it down or
      one of the sender's names become free. */
  ghost predicate Alive(steps: seq<Step>, sender: Name, path: Path) {
    exists i :: 0 <= i < |steps| && steps[i] == Create(sender, Complete)
      && path == ControlPath(PathsGiven(steps[..i]))
      && forall j :: i < j < |steps| ==> !Releases(steps[j], sender) && steps[j] != Shutdown(sender, path)
  }

  lemma PresentNext(steps: seq<Step>, step: Step, sender: Name)
    ensures Present(steps + [step], sender)
       <==> Places(step, sender) || (Present(steps, sender) && !Releases(step, sender))
  {
    var n, all := |steps|, steps + [step];
    assert all[n] == step && forall i :: 0 <= i < n ==> all[i] == steps[i];
    if Places(step, sender) {
      assert Places(all[n], sender);
    } else if Present(all, sender) {
      var i :| 0 <= i < n + 1 && Places(all[i], sender) && forall j :: i < j < n + 1 ==> !Releases(all[j], sender);
      assert Places(steps[i], sender) && !Releases(all[n], sender);
      assert forall j :: i < j < n ==> steps[j] == all[j];
    }
  }

  lemma PathsGivenNext(steps: seq<Step>, step: Step)
    ensures PathsGiven(steps + [step]) == PathsGiven(steps) + if GivesPath(step) then 1 else 0
  {
    var all := steps + [step];
    var before := set i | 0 <= i < |steps| && GivesPath(steps[i]);
    var after := set i | 0 <= i < |all| && GivesPath(all[i]);
    assert after == before + if GivesPath(step) then {|steps|} else {};
  }

  lemma Longer(steps: seq<Step>, step: Step)
    ensures var all := steps + [step];
      && all[|steps|] == step && all[..|steps|] == steps
      && forall i :: 0 <= i < |steps| ==> all[..i] == steps[..i] && all[i] == steps[i]
  {
  }

  lemma AliveBefore(steps: seq<Step>, step: Step, sender: Name, path: Path)
    requires Alive(steps + [step], sender, path)
    ensures || (step == Create(sender, Complete) && path == ControlPath(PathsGiven(steps)))
            || (Alive(steps, sender, path) && !Releases(step, sender) && step != Shutdown(sender, path))
  {
    hide PathsGiven, ControlPath, Releases;
    var n, all := |steps|, steps + [step];
    Longer(steps, step);
    var i :| 0 <= i < n + 1 && all[i] == Create(sender, Complete) && path == ControlPath(PathsGiven(all[..i]))
      && forall j :: i < j < n + 1 ==> !Releases(all[j], sender) && all[j] != Shutdown(sender, path);
    if i < n {
      assert steps[i] == Create(sender, Complete);
      assert !Releases(all[n], sender) && all[n] != Shutdown(sender, path);
    }
  }

  lemma AliveNext(steps: seq<Step>, step: Step, sender: Name, path: Path)
    ensures Alive(steps + [step], sender, path)
       <==> || (step == Create(sender, Complete) && path == ControlPath(PathsGiven(steps)))
            || (Alive(steps, sender, path) && !Releases(step, sender) && step != Shutdown(sender, path))
  {
    hide PathsGiven, ControlPath, Releases;
    var n, all := |steps|, steps + [step];
    Longer(steps, step);
    if Alive(all, sender, path) {
      AliveBefore(steps, step, sender, path);
    }
    if Alive(steps, sender, path) && !Releases(step, sender) && step != Shutdown(sender, path) {
      var i :| 0 <= i < n && steps[i] == Create(sender, Complete) && path == ControlPath(PathsGiven(steps[..i]))
        && forall j :: i < j < n ==> !Releases(steps[j], sender) && steps[j] != Shutdown(sender, path);
      assert all[i] == Create(sender, Complete);
    }
    if step == Create(sender, Complete) && path == ControlPath(PathsGiven(steps)) {
      assert all[n] == Create(sender, Complete);
    }
  }

  /** After every run the table has exactly the senders that are present, each with
      exactly its controls that are alive, and the counter is the number of paths
      given out. */
  lemma {:induction false} TableIsHistory(steps: seq<Step>, sender: Name)
    ensures sender in After(steps).hosts <==> Present(steps, sender)
    ensures forall path :: path in After(steps).Controls(sender) <==> Alive(steps, sender, path)
    ensures After(steps).count == PathsGiven(steps)
    decreases |steps|
  {
    hide Present, Alive, PathsGiven, ControlPath;
    if steps == [] {
      NothingYet(sender);
    } else {
      var before, last := steps[..|steps| - 1], steps[|steps| - 1];
      assert steps == before + [last];
      TableIsHistory(before, sender);
      StepChangesTable(After(before), last, sender);
      PresentNext(before, last, sender);
      PathsGivenNext(before, last);
      forall path
        ensures path in After(steps).Controls(sender) <==> Alive(steps, sender, path)
      {
        AliveNext(before, last, sender, path);
      }
    }
  }

  lemma NothingYet(sender: Name)
    ensures !Present([], sender) && PathsGiven([]) == 0
    ensures forall path :: !Alive([], sender, path)
  {
  }

  lemma StepChangesTable(s: Factory, step: Step, sender: Name)
    ensures sender in s.Next(step).hosts <==> Places(step, sender) || (sender in s.hosts && !Releases(step, sender))
    ensures forall path :: path in s.Next(step).Controls(sender) <==>
      || (step == Create(sender, Complete) && path == ControlPath(s.count))
      || (path in s.Controls(sender) && !Releases(step, sender) && step != Shutdown(sender, path))
  {
  }

  /** Every path in the table has been given out. */
  ghost predicate PathsKnown(s: Factory) {
    forall sender, path :: sender in s.hosts && path in s.hosts[sender] ==>
      exists n :: 0 <= n < s.count && path == ControlPath(n)
  }

  /** No path is with two senders. */
  ghost predicate PathsApart(s: Factory) {
    forall a, b :: a in s.hosts && b in s.hosts && a != b ==> s.hosts[a] !! s.hosts[b]
  }

  lemma PathIsNew(s: Factory, sender: Name)
    requires PathsKnown(s) && sender in s.hosts
    ensures ControlPath(s.count) !in s.hosts[sender]
  {
    if ControlPath(s.count) in s.hosts[sender] {
      var n :| 0 <= n < s.count && ControlPath(s.count) == ControlPath(n);
      ControlPathsDiffer(s.count, n);
    }
  }

  /** After every run, every control is with one sender. */
  lemma {:induction false} EveryPathHasOneSender(steps: seq<Step>)
    ensures PathsKnown(After(steps)) && PathsApart(After(steps))
    decreases |steps|
  {
    if steps != [] {
      var before, last := steps[..|steps| - 1], steps[|steps| - 1];
      EveryPathHasOneSender(before);
      var s := After(before);
      StepKeepsPathsKnown(s, last);
      StepKeepsPathsApart(s, last);
    }
  }

  lemma StepKeepsPathsKnown(s: Factory, step: Step)
    requires PathsKnown(s)
    ensures PathsKnown(s.Next(step))
  {
    var r := s.Next(step);
    forall sender, path | sender in r.hosts && path in r.hosts[sender]
      ensures exists n :: 0 <= n < r.count && path == ControlPath(n)
    {
      StepChangesTable(s, step, sender);
      assert path in r.Controls(sender);
      if path in s.Controls(sender) {
        var n :| 0 <= n < s.count && path == ControlPath(n);
        assert n < r.count;
      } else {
        assert s.count < r.count;
      }
    }
  }

  lemma StepKeepsPathsApart(s: Factory, step: Step)
    requires PathsKnown(s) && PathsApart(s)
    ensures PathsApart(s.Next(step))
  {
    var r := s.Next(step);
    forall a, b, path | a in r.hosts && b in r.hosts && a != b && path in r.hosts[a]
      ensures path !in r.hosts[b]
    {
      StepChangesTable(s, step, a);
      StepChangesTable(s, step, b);
      assert path in r.Controls(a);
      if a in s.hosts {
        PathIsNew(s, a);
      }
      if b in s.hosts {
        PathIsNew(s, b);
      }
    }
  }

  /** The process is told to end exactly by the steps that empty the table. */
  lemma QuitsWhenEmptied(s: Factory, step: Step)
    ensures s.Quits(step) <==> s.hosts != map[] && s.Next(step).hosts == map[]
  {
    if s.hosts != map[] {
      var sender :| sender in s.hosts;
      StepChangesTable(s, step, sender);
    }
  }

  /** At some step the sender has got a place, and at none since has it left the bus
      by giving up the name that is its own. */
  ghost predicate OnBus(steps: seq<Step>, sender: Name) {
    exists i :: 0 <= i < |steps| && Places(steps[i], sender)
      && forall j :: i < j < |steps| ==> steps[j] != OwnerChange(sender, sender, [])
  }

  lemma OnBusNext(steps: seq<Step>, step: Step, sender: Name)
    ensures OnBus(steps + [step], sender)
       <==> Places(step, sender) || (OnBus(steps, sender) && step != OwnerChange(sender, sender, []))
  {
    var n, all := |steps|, steps + [step];
    assert all[n] == step && forall i :: 0 <= i < n ==> all[i] == steps[i];
    if Places(step, sender) {
      assert Places(all[n], sender);
    } else if OnBus(all, sender) {
      var i :| 0 <= i < n + 1 && Places(all[i], sender)
        && forall j :: i < j < n + 1 ==> all[j] != OwnerChange(sender, sender, []);
      assert Places(steps[i], sender) && all[n] != OwnerChange(sender, sender, []);
      assert forall j :: i < j < n ==> steps[j] == all[j];
    }
  }

  /** The table has the senders that are still on the bus. */
  ghost predicate Accurate(steps: seq<Step>) {
    forall sender :: sender in After(steps).hosts <==> OnBus(steps, sender)
  }

  /** A sender in the table gives up a name other than its own. */
  predicate GivesUpSecondName(s: Factory, step: Step) {
    step.OwnerChange? && step.newOwner == [] && step.oldOwner in s.hosts && step.name != step.oldOwner
  }

  /** A step leaves the table accurate, unless a sender in the table gives up a name
      other than its own. */
  lemma StaysAccurateExactly(steps: seq<Step>, step: Step)
    requires Accurate(steps)
    ensures Accurate(steps + [step]) <==> !GivesUpSecondName(After(steps), step)
  {
    var all, s := steps + [step], After(steps);
    hide OnBus;
    assert all[..|all| - 1] == steps;
    forall sender
      ensures (sender in After(all).hosts <==> OnBus(all, sender))
        <==> !(Releases(step, sender) && sender in s.hosts && step.name != sender)
    {
      StepChangesTable(s, step, sender);
      OnBusNext(steps, step, sender);
    }
  }

  /** The table is accurate all through a run exactly when at no step a sender in the
      table gives up a name other than its own. */
  lemma {:induction false} AccurateThroughoutExactly(steps: seq<Step>)
    ensures (forall k :: 0 <= k <= |steps| ==> Accurate(steps[..k]))
       <==> forall k :: 0 <= k < |steps| ==> !GivesUpSecondName(After(steps[..k]), steps[k])
    decreases |steps|
  {
    hide Accurate, GivesUpSecondName, After;
    if steps == [] {
      AccurateAtFirst();
    } else {
      var n := |steps| - 1;
      var before, last := steps[..n], steps[n];
      AccurateThroughoutExactly(before);
      assert steps[..n + 1] == steps == before + [last];
      assert forall k :: 0 <= k <= n ==> before[..k] == steps[..k];
      if Accurate(steps[..n]) {
        StaysAccurateExactly(before, last);
      }
    }
  }

  lemma AccurateAtFirst()
    ensures Accurate([])
  {
  }

  ghost predicate SomeOnBus(steps: seq<Step>) {
    exists sender :: OnBus(steps, sender)
  }

  lemma TableEmptyExactly(steps: seq<Step>)
    requires Accurate(steps)
    ensures After(steps).hosts != map[] <==> SomeOnBus(steps)
  {
    hide OnBus, After;
    if After(steps).hosts != map[] {
      var sender :| sender in After(steps).hosts;
      assert OnBus(steps, sender);
    }
  }

  /** From an accurate history, the process is told to end exactly by the step after
      which no sender is left on the bus, unless the only sender left gives up a
      name other than its own. */
  lemma QuitsWithLastSenderExactly(steps: seq<Step>, step: Step)
    requires Accurate(steps)
    ensures (After(steps).Quits(step) <==> SomeOnBus(steps) && !SomeOnBus(steps + [step]))
       <==> !(GivesUpSecondName(After(steps), step) && After(steps).hosts.Keys == {step.oldOwner})
  {
    var all, s := steps + [step], After(steps);
    assert all[..|all| - 1] == steps;
    assert After(all) == s.Next(step);
    QuitsWhenEmptied(s, step);
    TableEmptyExactly(steps);
    StaysAccurateExactly(steps, step);
    hide OnBus, After, Factory.Next, Factory.Quits, Accurate;
    if GivesUpSecondName(s, step) {
      SecondNameQuits(s, step);
      OnBusNext(steps, step, step.oldOwner);
      SenderOnBus(steps, step.oldOwner);
      assert OnBus(all, step.oldOwner);
    } else {
      TableEmptyExactly(all);
    }
  }

  lemma SenderOnBus(steps: seq<Step>, sender: Name)
    requires Accurate(steps) && sender in After(steps).hosts
    ensures OnBus(steps, sender) && SomeOnBus(steps)
  {
    hide OnBus, After;
  }

  lemma SecondNameQuits(s: Factory, step: Step)
    requires GivesUpSecondName(s, step)
    ensures s.Quits(step) <==> s.hosts.Keys == {step.oldOwner}
  {
    var r := s.Next(step);
    assert r.hosts.Keys == s.hosts.Keys - {step.oldOwner};
    assert r.hosts == map[] <==> r.hosts.Keys == {};
  }

  /** So in a run in which no sender in the table gives up a second name, the process
      is told to end exactly by the steps with which the last sender leaves. */
  lemma EveryRunQuitsWithLastSender(steps: seq<Step>, k: nat)
    requires k < |steps|
    requires forall i :: 0 <= i < |steps| ==> !GivesUpSecondName(After(steps[..i]), steps[i])
    ensures After(steps[..k]).Quits(steps[k]) <==> SomeOnBus(steps[..k]) && !SomeOnBus(steps[..k + 1])
  {
    AccurateThroughoutExactly(steps);
    QuitsWithLastSenderExactly(steps[..k], steps[k]);
    assert steps[..k + 1] == steps[..k] + [steps[k]];
  }

  /** A sender that gives up a second name loses its controls, and the process is
      told to end, though the sender is still on the bus. */
  lemma SecondNameGivenUp()
    ensures var steps := [Create(":1.1", Complete)];
      var step := OwnerChange("org.example.Browser", ":1.1", []);
      && Accurate(steps) && After(steps).Quits(step) && OnBus(steps + [step], ":1.1")
  {
    var steps: seq<Step> := [Create(":1.1", Complete)];
    var step := OwnerChange("org.example.Browser", ":1.1", []);
    assert steps[..0] == [] && (steps + [step])[..1] == steps;
    assert Places(steps[0], ":1.1") && Places((steps + [step])[0], ":1.1");
    assert After(steps) == INITIAL.Next(steps[0]);
    assert INITIAL.Controls(":1.1") + {ControlPath(0)} == {ControlPath(0)};
    assert After(steps).hosts == map[":1.1" := {ControlPath(0)}];
    assert After(steps).Next(step).hosts == map[];
  }

  /** A place does not depend on controls: after any run a creation that fails late
      can give a sender a place and no control, and a host that shuts down, even the
      last one, takes no place away and does not end the process. */
  lemma PlacesOutliveControls(steps: seq<Step>, sender: Name, path: Path)
    ensures var failed := After(steps + [Create(sender, NoEntry(true))]);
      sender in failed.hosts && failed.Controls(sender) == After(steps).Controls(sender)
    ensures After(steps + [Shutdown(sender, path)]).hosts.Keys == After(steps).hosts.Keys
    ensures !After(steps).Quits(Shutdown(sender, path))
  {
    var failure, shutdown := Create(sender, NoEntry(true)), Shutdown(sender, path);
    assert (steps + [failure])[..|steps|] == steps && (steps + [shutdown])[..|steps|] == steps;
  }
}
