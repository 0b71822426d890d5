/** What a run of downloads leads to, told from its steps alone. */
module StreamHistories {
  import opened Bytes
  import opened StreamMessages
  import opened StreamProtocol

  /** The report at `k` is read: curl has given every handle before it back. */
  ghost predicate IsRead(reports: seq<Report>, k: nat)
    requires k < |reports|
  {
    forall j :: 0 <= j < k && reports[j].Finished? ==> reports[j].removed
  }

  /** The end of the download with handle `h` is read. */
  ghost predicate Ends(step: Step, h: Handle) {
    step.Reports? && ReadsEnd(step.reports, h)
  }

  ghost predicate ReadsEnd(reports: seq<Report>, h: Handle) {
    exists k :: 0 <= k < |reports| && reports[k].Finished? && reports[k].handle == h && IsRead(reports, k)
  }

  /** And curl gives the handle back. */
  ghost predicate Frees(step: Step, h: Handle) {
    step.Reports? && ReadsFree(step.reports, h)
  }

  ghost predicate ReadsFree(reports: seq<Report>, h: Handle) {
    exists k :: 0 <= k < |reports| && reports[k] == Finished(h, true) && IsRead(reports, k)
  }

  predicate Enters(step: Step, h: Handle) {
    step.Request? && step.handle == h && step.memory
  }

  predicate Opens(step: Step, h: Handle) {
    step.Arrival? && step.handle == h && step.opens
  }

  predicate Asks(step: Step, h: Handle) {
    step.Request? && step.handle == h
  }

  /** Some request has put the stream of `h` into the table, and its end has not been
      read since. */
  ghost predicate InTable(steps: seq<Step>, h: Handle) {
    exists i :: 0 <= i < |steps| && Enters(steps[i], h) && forall j :: i < j < |steps| ==> !Ends(steps[j], h)
  }

  /** Data has arrived for `h` and opened its stream, and no new request has come since. */
  ghost predicate HasOpened(steps: seq<Step>, h: Handle) {
    exists i :: 0 <= i < |steps| && Opens(steps[i], h) && forall j :: i < j < |steps| ==> !Enters(steps[j], h)
  }

  /** curl has taken on the handle, and the end of its download has not been read since. */
  ghost predicate WorkedOn(steps: seq<Step>, h: Handle) {
    exists i :: 0 <= i < |steps| && steps[i] == Request(h, true, true, true)
      && forall j :: i < j < |steps| ==> !Ends(steps[j], h)
  }

  /** The handle has been handed out, and not been given back since. */
  ghost predicate NotFreed(steps: seq<Step>, h: Handle) {
    exists i :: 0 <= i < |steps| && Asks(steps[i], h) && forall j :: i < j < |steps| ==> !Frees(steps[j], h)
  }

  /** Some request has put a stream of `h` into the table. */
  ghost predicate EverAsked(steps: seq<Step>, h: Handle) {
    exists i :: 0 <= i < |steps| && Enters(steps[i], h)
  }

  /** The data that has arrived for `h` since its last request and was not refused. */
  ghost function Delivered(steps: seq<Step>, h: Handle): seq<byte> {
    if steps == [] then []
    else
      var before, last := steps[..|steps| - 1], steps[|steps| - 1];
      if Enters(last, h) then []
      else if last.Arrival? && last.handle == h && (last.opens || HasOpened(before, h)) then
        Delivered(before, h) + last.data
      else Delivered(before, h)
  }

  lemma Longer(steps: seq<Step>, step: Step)
    ensures var all := steps + [step];
      && |all| == |steps| + 1 && all[|steps|] == step && all[..|steps|] == steps
      && forall i :: 0 <= i < |steps| ==> all[i] == steps[i]
  {
  }

  lemma InTableNext(steps: seq<Step>, step: Step, h: Handle)
    ensures InTable(steps + [step], h) <==> Enters(step, h) || (InTable(steps, h) && !Ends(step, h))
  {
    hide Ends, Enters;
    var n, all := |steps|, steps + [step];
    Longer(steps, step);
    if InTable(all, h) {
      var i :| 0 <= i < n + 1 && Enters(all[i], h) && forall j :: i < j < n + 1 ==> !Ends(all[j], h);
      assert i < n ==> Enters(steps[i], h) && !Ends(all[n], h);
    }
    if Enters(step, h) {
      assert Enters(all[n], h);
    } else if InTable(steps, h) && !Ends(step, h) {
      var i :| 0 <= i < n && Enters(steps[i], h) && forall j :: i < j < n ==> !Ends(steps[j], h);
      assert Enters(all[i], h);
    }
  }

  lemma HasOpenedNext(steps: seq<Step>, step: Step, h: Handle)
    ensures HasOpened(steps + [step], h) <==> Opens(step, h) || (HasOpened(steps, h) && !Enters(step, h))
  {
    hide Opens, Enters;
    var n, all := |steps|, steps + [step];
    Longer(steps, step);
    if HasOpened(all, h) {
      var i :| 0 <= i < n + 1 && Opens(all[i], h) && forall j :: i < j < n + 1 ==> !Enters(all[j], h);
      assert i < n ==> Opens(steps[i], h) && !Enters(all[n], h);
    }
    if Opens(step, h) {
      assert Opens(all[n], h);
    } else if HasOpened(steps, h) && !Enters(step, h) {
      var i :| 0 <= i < n && Opens(steps[i], h) && forall j :: i < j < n ==> !Enters(steps[j], h);
      assert Opens(all[i], h);
    }
  }

  lemma WorkedOnNext(steps: seq<Step>, step: Step, h: Handle)
    ensures WorkedOn(steps + [step], h)
       <==> step == Request(h, true, true, true) || (WorkedOn(steps, h) && !Ends(step, h))
  {
    hide Ends;
    var n, all := |steps|, steps + [step];
    Longer(steps, step);
    if WorkedOn(all, h) {
      var i :| 0 <= i < n + 1 && all[i] == Request(h, true, true, true)
        && forall j :: i < j < n + 1 ==> !Ends(all[j], h);
      assert i < n ==> steps[i] == Request(h, true, true, true) && !Ends(all[n], h);
    }
    if step == Request(h, true, true, true) {
      assert all[n] == Request(h, true, true, true);
    } else if WorkedOn(steps, h) && !Ends(step, h) {
      var i :| 0 <= i < n && steps[i] == Request(h, true, true, true) && forall j :: i < j < n ==> !Ends(steps[j], h);
      assert all[i] == Request(h, true, true, true);
    }
  }

  lemma NotFreedNext(steps: seq<Step>, step: Step, h: Handle)
    ensures NotFreed(steps + [step], h) <==> Asks(step, h) || (NotFreed(steps, h) && !Frees(step, h))
  {
    hide Frees, Asks;
    var n, all := |steps|, steps + [step];
    Longer(steps, step);
    if NotFreed(all, h) {
      var i :| 0 <= i < n + 1 && Asks(all[i], h) && forall j :: i < j < n + 1 ==> !Frees(all[j], h);
      assert i < n ==> Asks(steps[i], h) && !Frees(all[n], h);
    }
    if Asks(step, h) {
      assert Asks(all[n], h);
    } else if NotFreed(steps, h) && !Frees(step, h) {
      var i :| 0 <= i < n && Asks(steps[i], h) && forall j :: i < j < n ==> !Frees(steps[j], h);
      assert Asks(all[i], h);
    }
  }

  lemma EverAskedNext(steps: seq<Step>, step: Step, h: Handle)
    ensures EverAsked(steps + [step], h) <==> Enters(step, h) || EverAsked(steps, h)
  {
    hide Enters;
    var n, all := |steps|, steps + [step];
    Longer(steps, step);
    if EverAsked(all, h) {
      var i :| 0 <= i < n + 1 && Enters(all[i], h);
      assert i < n ==> Enters(steps[i], h);
    }
    if Enters(step, h) {
      assert Enters(all[n], h);
    } else if EverAsked(steps, h) {
      var i :| 0 <= i < n && Enters(steps[i], h);
      assert Enters(all[i], h);
    }
  }

  lemma ReadsNext(reports: seq<Report>, h: Handle)
    requires reports != []
    ensures var first, rest := reports[0], reports[1..];
      var on := first.Other? || first.removed;
      && (ReadsEnd(reports, h) <==> (first.Finished? && first.handle == h) || (on && ReadsEnd(rest, h)))
      && (ReadsFree(reports, h) <==> first == Finished(h, true) || (on && ReadsFree(rest, h)))
  {
    var first, rest := reports[0], reports[1..];
    var on := first.Other? || first.removed;
    forall k | 0 < k < |reports|
      ensures IsRead(reports, k) <==> on && IsRead(rest, k - 1)
    {
      ReadAfterFirst(reports, k);
    }
    assert IsRead(reports, 0);
    assert forall k :: 0 < k < |reports| ==> reports[k] == rest[k - 1];
    hide IsRead;
    if ReadsEnd(reports, h) {
      var k :| 0 <= k < |reports| && reports[k].Finished? && reports[k].handle == h && IsRead(reports, k);
      assert k > 0 ==> rest[k - 1] == reports[k] && on && IsRead(rest, k - 1);
    }
    if on && ReadsEnd(rest, h) {
      var k :| 0 <= k < |rest| && rest[k].Finished? && rest[k].handle == h && IsRead(rest, k);
      assert reports[k + 1] == rest[k] && IsRead(reports, k + 1);
    }
    if ReadsFree(reports, h) {
      var k :| 0 <= k < |reports| && reports[k] == Finished(h, true) && IsRead(reports, k);
      assert k > 0 ==> rest[k - 1] == reports[k] && on && IsRead(rest, k - 1);
    }
    if on && ReadsFree(rest, h) {
      var k :| 0 <= k < |rest| && rest[k] == Finished(h, true) && IsRead(rest, k);
      assert reports[k + 1] == rest[k] && IsRead(reports, k + 1);
    }
  }

  lemma ReadAfterFirst(reports: seq<Report>, k: nat)
    requires 0 < k < |reports|
    ensures IsRead(reports, k) <==> (reports[0].Other? || reports[0].removed) && IsRead(reports[1..], k - 1)
  {
    var rest := reports[1..];
    assert forall j :: 0 <= j < |rest| ==> rest[j] == reports[j + 1];
    if IsRead(reports, k) {
      assert reports[0].Finished? ==> reports[0].removed;
      forall j | 0 <= j < k - 1 && rest[j].Finished?
        ensures rest[j].removed
      {
        assert reports[j + 1].removed;
      }
    } else {
      var j :| 0 <= j < k && reports[j].Finished? && !reports[j].removed;
      assert j > 0 ==> rest[j - 1] == reports[j];
    }
  }

  /** What the reports do to one handle. */
  lemma {:induction false} ReportedEffect(s: Host, reports: seq<Report>, h: Handle)
    requires s.Valid() && CanReport(s.running, reports)
    ensures var r := Reported(s, reports);
      && (h in r.streams <==> h in s.streams && !ReadsEnd(reports, h))
      && (h in r.streams ==> r.streams[h] == s.streams[h])
      && (h in r.running <==> h in s.running && !ReadsEnd(reports, h))
      && (h in r.live <==> h in s.live && !ReadsFree(reports, h))
      && r.began == s.began && r.accepted == s.accepted
      && r.failed == s.failed && r.errors == s.errors && r.withoutHandle == s.withoutHandle
      && s.log <= r.log
    decreases |reports|
  {
    hide Host.Valid, ReadsEnd, ReadsFree;
    if reports != [] {
      ReadsNext(reports, h);
      match reports[0]
      case Other => ReportedEffect(s, reports[1..], h);
      case Finished(h', removed) =>
        RunningStream(s, h');
        DoneKeepsValid(s, h', removed);
        if removed {
          ReportedEffect(s.Done(h', removed), reports[1..], h);
        }
    } else {
      NothingRead(h);
    }
  }

  lemma NothingRead(h: Handle)
    ensures !ReadsEnd([], h) && !ReadsFree([], h)
  {
  }

  lemma GetUrlEffect(s: Host, asked: Handle, memory: bool, options: bool, added: bool, h: Handle)
    requires h in s.began <==> h in s.accepted
    ensures var r, enters := s.GetUrl(asked, memory, options, added), asked == h && memory;
      && (h in r.streams <==> h in s.streams || enters)
      && (h in r.streams ==> (r.streams[h] <==> !enters && s.streams[h]))
      && (h in r.running <==> h in s.running || (enters && options && added))
      && (h in r.live <==> h in s.live || (asked == h && h != NO_HANDLE))
      && (h in r.began <==> h in s.began || enters)
      && (h in r.began ==> h in r.accepted)
      && (h in r.began ==> (if enters then r.accepted[h] == [] else h in s.accepted && r.accepted[h] == s.accepted[h]))
      && r.log == s.log
  {
  }

  /** What a request does to one handle. */
  lemma RequestEffect(s: Host, step: Step, h: Handle)
    requires s.Valid() && step.Request? && Can(s, step)
    ensures var r := Next(s, step);
      && (h in r.streams <==> h in s.streams || Enters(step, h))
      && (h in r.streams ==> (r.streams[h] <==> !Enters(step, h) && s.streams[h]))
      && (h in r.running <==> h in s.running || step == Request(h, true, true, true))
      && (h in r.live <==> h in s.live || (Asks(step, h) && h != NO_HANDLE))
      && (h in r.began <==> h in s.began || Enters(step, h))
      && (h in r.began ==> h in r.accepted)
      && (h in r.began ==>
          if Enters(step, h) then r.accepted[h] == [] else h in s.accepted && r.accepted[h] == s.accepted[h])
      && r.log == s.log
  {
    BeganIsAccepted(s, h);
    hide Host.Valid, Host.GetUrl, CanGetUrl;
    GetUrlEffect(s, step.handle, step.memory, step.options, step.added, h);
  }

  lemma BeganIsAccepted(s: Host, h: Handle)
    requires s.Valid()
    ensures h in s.began <==> h in s.accepted
    ensures h in s.streams ==> h in s.began
  {
    hide Host.Counts, Host.Streams, Host.Earlier, HandlesAgree;
    assert h in s.began.Keys <==> h in s.accepted.Keys;
  }

  lemma DataEffect(s: Host, to: Handle, data: seq<byte>, h: Handle)
    requires to in s.streams && to in s.accepted && (h in s.began <==> h in s.accepted)
    ensures var r := s.Data(to, data);
      && (h in r.streams <==> h in s.streams)
      && (h in r.streams ==> (r.streams[h] <==> to == h || s.streams[h]))
      && r.running == s.running && r.live == s.live && r.began == s.began
      && (h in r.began ==> h in s.accepted && h in r.accepted)
      && (h in r.began ==> r.accepted[h] == s.accepted[h] + if to == h then data else [])
      && s.log <= r.log
  {
    hide Writes, Chunks;
  }

  /** What arriving data does to one handle. */
  lemma ArrivalEffect(s: Host, step: Step, h: Handle)
    requires s.Valid() && step.Arrival? && Can(s, step)
    ensures step.handle in s.streams
    ensures var r, taken := Next(s, step), step.opens || s.streams[step.handle];
      && (h in r.streams <==> h in s.streams)
      && (h in r.streams ==> (r.streams[h] <==> Opens(step, h) || s.streams[h]))
      && r.running == s.running && r.live == s.live && r.began == s.began
      && (h in r.began ==> h in s.accepted && h in r.accepted)
      && (h in r.began ==> r.accepted[h] == s.accepted[h] + if step.handle == h && taken then step.data else [])
      && s.log <= r.log
  {
    hide *;
    ArrivalStep(s, step, h);
    BeganIsAccepted(s, h);
    DataEffect(s, step.handle, step.data, h);
  }

  lemma ArrivalStep(s: Host, step: Step, h: Handle)
    requires s.Valid() && step.Arrival? && Can(s, step)
    ensures step.handle in s.streams && step.handle in s.accepted
    ensures Next(s, step) == if step.opens || s.streams[step.handle] then s.Data(step.handle, step.data) else s
    ensures Opens(step, h) <==> step.handle == h && step.opens
  {
    RunningStream(s, step.handle);
    hide Host.Valid, Host.Data;
  }

  lemma NoRequestEnds(step: Step, h: Handle)
    ensures step.Request? || step.Arrival? ==> !Ends(step, h) && !Frees(step, h)
    ensures step.Reports? ==> !Enters(step, h) && !Asks(step, h) && !Opens(step, h)
    ensures step.Reports? ==> (Ends(step, h) <==> ReadsEnd(step.reports, h))
    ensures step.Reports? ==> (Frees(step, h) <==> ReadsFree(step.reports, h))
  {
    hide ReadsEnd, ReadsFree;
  }

  lemma DeliveredNext(steps: seq<Step>, step: Step, h: Handle)
    ensures Delivered(steps + [step], h) ==
      if Enters(step, h) then []
      else if step.Arrival? && step.handle == h && (step.opens || HasOpened(steps, h)) then
        Delivered(steps, h) + step.data
      else Delivered(steps, h)
  {
    hide HasOpened, Enters;
    Longer(steps, step);
  }

  /** The fields of a state about one handle are those that the steps tell of. */
  ghost predicate TellsOf(s: Host, steps: seq<Step>, h: Handle) {
    && (h in s.streams <==> InTable(steps, h))
    && (h in s.streams ==> (s.streams[h] <==> HasOpened(steps, h)))
    && (h in s.running <==> WorkedOn(steps, h))
    && (h in s.live <==> NotFreed(steps, h) && h != NO_HANDLE)
    && (h in s.began <==> EverAsked(steps, h))
    && (h in s.began ==> h in s.accepted && s.accepted[h] == Delivered(steps, h))
  }

  lemma StepTellsOf(s: Host, steps: seq<Step>, step: Step, h: Handle)
    requires s.Valid() && Can(s, step) && TellsOf(s, steps, h)
    ensures TellsOf(Next(s, step), steps + [step], h)
  {
    hide InTable, HasOpened, WorkedOn, NotFreed, EverAsked, Delivered, Ends, Frees, ReadsEnd, ReadsFree;
    hide Next, Can, Host.Valid;
    InTableNext(steps, step, h);
    HasOpenedNext(steps, step, h);
    WorkedOnNext(steps, step, h);
    NotFreedNext(steps, step, h);
    EverAskedNext(steps, step, h);
    DeliveredNext(steps, step, h);
    NoRequestEnds(step, h);
    match step
    case Request(_, _, _, _) => RequestEffect(s, step, h);
    case Arrival(h', _, _) =>
      ArrivalEffect(s, step, h);
      RunningStep(s, step);
    case Reports(reports) =>
      ReportsStep(s, step);
      ReportedEffect(s, reports, h);
  }

  lemma RunningStep(s: Host, step: Step)
    requires s.Valid() && step.Arrival? && Can(s, step)
    ensures step.handle in s.streams && step.handle in s.began
  {
    RunningHasStream(s, step.handle);
  }

  lemma ReportsStep(s: Host, step: Step)
    requires s.Valid() && step.Reports? && Can(s, step)
    ensures CanReport(s.running, step.reports) && Next(s, step) == Reported(s, step.reports)
  {
    hide CanReport, Host.Valid, Reported;
  }

  lemma TellsOfNothing(h: Handle)
    ensures TellsOf(INITIAL, [], h)
  {
  }

  lemma {:induction false} StateTellsOf(steps: seq<Step>, h: Handle)
    requires IsRun(steps)
    ensures TellsOf(After(steps), steps, h)
    decreases |steps|
  {
    hide *;
    if steps == [] {
      RunStart();
      TellsOfNothing(h);
    } else {
      var before, last := steps[..|steps| - 1], steps[|steps| - 1];
      assert steps == before + [last];
      RunBegins(before, last);
      StateTellsOf(before, h);
      StepTellsOf(After(before), before, last, h);
    }
  }

  /** After every run: which streams are in the table and which of them are open, what
      curl works on, which handles are in use, and what has been written of the latest
      stream of every handle, is what the steps of the run say. */
  lemma EveryRunIsTold(steps: seq<Step>, h: Handle)
    requires IsRun(steps)
    ensures var s := After(steps);
      && (h in s.streams <==> InTable(steps, h))
      && (h in s.streams ==> (s.streams[h] <==> HasOpened(steps, h)))
      && (h in s.running <==> WorkedOn(steps, h))
      && (h in s.live <==> NotFreed(steps, h) && h != NO_HANDLE)
      && (h in s.began <==> EverAsked(steps, h))
      && (h in s.began ==> s.began[h] <= |s.log| && Payload(s.Sent(h)) == Delivered(steps, h))
  {
    StateTellsOf(steps, h);
    hide InTable, HasOpened, WorkedOn, NotFreed, EverAsked, Delivered, IsRun, After, Payload;
    if h in After(steps).began {
      EveryRunSendsStreams(steps, h);
    }
  }

  /** What has been sent stays sent. */
  lemma {:induction false} LogGrows(steps: seq<Step>, more: seq<Step>)
    requires IsRun(steps) && IsRun(steps + more)
    ensures After(steps).log <= After(steps + more).log
    decreases |more|
  {
    hide *;
    if more == [] {
      assert steps + more == steps;
    } else {
      var init, last := more[..|more| - 1], more[|more| - 1];
      assert steps + more == (steps + init) + [last];
      RunBegins(steps + init, last);
      LogGrows(steps, init);
      StepLogGrows(After(steps + init), last);
    }
  }

  lemma StepLogGrows(s: Host, step: Step)
    requires s.Valid() && Can(s, step)
    ensures s.log <= Next(s, step).log
  {
    hide Next, Can, Host.Valid, Reported, CanReport;
    match step
    case Request(_, _, _, _) => RequestEffect(s, step, NO_HANDLE);
    case Arrival(_, _, _) => ArrivalEffect(s, step, NO_HANDLE);
    case Reports(reports) =>
      ReportsStep(s, step);
      ReportedEffect(s, reports, NO_HANDLE);
  }

  /** How many of the steps are of a kind. */
  function CountOf(steps: seq<Step>, kind: Step -> bool): nat {
    if steps == [] then 0
    else CountOf(steps[..|steps| - 1], kind) + if kind(steps[|steps| - 1]) then 1 else 0
  }

  function Accepted(step: Step): bool {
    step.Request? && step.memory && step.options
  }

  function Fails(step: Step): bool {
    step.Request? && step.memory && !step.options
  }

  function FailsWithoutHandle(step: Step): bool {
    Fails(step) && step.handle == NO_HANDLE
  }

  /** How many ends of downloads are read, up to the first handle that curl does not
      give back. */
  function EndsRead(reports: seq<Report>): nat {
    if reports == [] then 0
    else
      match reports[0]
      case Other => EndsRead(reports[1..])
      case Finished(_, removed) => 1 + if removed then EndsRead(reports[1..]) else 0
  }

  function AllEndsRead(steps: seq<Step>): nat {
    if steps == [] then 0
    else
      var last := steps[|steps| - 1];
      AllEndsRead(steps[..|steps| - 1]) + if last.Reports? then EndsRead(last.reports) else 0
  }

  lemma {:induction false} ReportedCounts(s: Host, reports: seq<Report>)
    requires s.Valid() && CanReport(s.running, reports)
    ensures var r := Reported(s, reports);
      && r.outstanding + EndsRead(reports) == s.outstanding
      && r.errors == s.errors && r.withoutHandle == s.withoutHandle
    decreases |reports|
  {
    hide Host.Valid;
    if reports != [] {
      match reports[0]
      case Other => ReportedCounts(s, reports[1..]);
      case Finished(h, removed) =>
        RunningStream(s, h);
        DoneKeepsValid(s, h, removed);
        if removed {
          ReportedCounts(s.Done(h, removed), reports[1..]);
        }
    }
  }

  lemma StepCounts(s: Host, step: Step)
    requires s.Valid() && Can(s, step)
    ensures var r := Next(s, step);
      && r.outstanding + (if step.Reports? then EndsRead(step.reports) else 0)
         == s.outstanding + (if Accepted(step) then 1 else 0)
      && r.errors == s.errors + (if Fails(step) then 1 else 0)
      && r.withoutHandle == s.withoutHandle + (if FailsWithoutHandle(step) then 1 else 0)
  {
    hide Host.Valid, Host.GetUrl, Reported, CanReport, CanGetUrl, EndsRead;
    match step
    case Request(h, memory, options, added) => GetUrlNumbers(s, h, memory, options, added);
    case Arrival(_, _, _) =>
      ArrivalStep(s, step, NO_HANDLE);
      hide Next, Can, Writes, Chunks;
    case Reports(reports) =>
      ReportsStep(s, step);
      ReportedCounts(s, reports);
  }

  lemma CountsNext(steps: seq<Step>, step: Step, kind: Step -> bool)
    ensures CountOf(steps + [step], kind) == CountOf(steps, kind) + if kind(step) then 1 else 0
    ensures AllEndsRead(steps + [step]) == AllEndsRead(steps) + if step.Reports? then EndsRead(step.reports) else 0
  {
    hide EndsRead;
    Longer(steps, step);
  }

  /** After every run, what counts as under way are the requests accepted less the ends
      read, and every request whose options were refused counts as an error. */
  lemma {:induction false} EveryRunIsCounted(steps: seq<Step>)
    requires IsRun(steps)
    ensures var s := After(steps);
      && s.outstanding + AllEndsRead(steps) == CountOf(steps, Accepted)
      && s.errors == CountOf(steps, Fails)
      && s.withoutHandle == CountOf(steps, FailsWithoutHandle)
    decreases |steps|
  {
    if steps == [] {
      RunStart();
    } else {
      hide *;
      var before, last := steps[..|steps| - 1], steps[|steps| - 1];
      assert steps == before + [last];
      RunBegins(before, last);
      EveryRunIsCounted(before);
      StepCounts(After(before), last);
      CountsNext(before, last, Accepted);
      CountsNext(before, last, Fails);
      CountsNext(before, last, FailsWithoutHandle);
    }
  }
}
