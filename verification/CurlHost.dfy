/** The browser host's side of downloads.  What curl and the browser answer comes
    in as parameters. */
module CurlHost {
  import opened Bytes
  import opened StreamMessages
  import opened StreamProtocol
  import PollList

  class CurlBrowserHost {
    /** The streams by handle: whether they have been opened. */
    var streams: map<Handle, bool>
    /** The event source, which keeps the count of downloads under way. */
    const source: PollList.CurlSource
    /** The calls made to the browser. */
    var log: seq<Message>

    /** The state the protocol is in. */
    ghost var state: Host

    /** The fields are those of the protocol's state. */
    ghost predicate Valid()
      reads this, source
    {
      && state.Valid()
      && streams == state.streams && source.outstandingHandles == state.outstanding && log == state.log
    }

    constructor ()
      ensures Valid() && state == INITIAL && fresh(source) && source.Valid()
    {
      streams := map[];
      source := new PollList.CurlSource();
      log := [];
      state := INITIAL;
      new;
      InitialValid();
    }

    /** Requests a URL with the handle curl provides.  The table is changed before
        the options are set and stays so when one of them is refused.  The idle
        callback that lets curl perform is queued if there is no other stream. */
    method GetUrl(handle: Handle, memory: bool, options: seq<bool>, added: bool) returns (result: nat, queued: bool)
      requires |options| == 5
      requires Valid() && CanGetUrl(state, handle, memory, Accepted(options))
      modifies this, source`outstandingHandles
      ensures Valid() && state == old(state).GetUrl(handle, memory, Accepted(options), added)
      ensures result == if memory && Accepted(options) then 0 else 1
      ensures queued <==> result == 0 && old(source.outstandingHandles == 0 && state.failed == {})
    {
      hide Host.Valid, CanGetUrl;
      GetUrlKeepsValid(state, handle, memory, Accepted(options), added);
      if memory && Accepted(options) {
        SingleStreamExactly(state, handle, added);
      }
      hide Accepted;
      state := state.GetUrl(handle, memory, Accepted(options), added);
      if !memory {
        return 1, false;
      }
      streams := streams[handle := false];
      var setopt := SetOptions(options);
      if !setopt {
        return 1, false;
      }
      // The handle is given to curl here.  What is looked at afterwards is not the
      // result of that, but once more the result of the last option.
      if !setopt {
        assert false;
      }
      source.outstandingHandles := source.outstandingHandles + 1;
      return 0, |streams| == 1;
    }

    /** Sets one option after the other, until one is refused. */
    method SetOptions(options: seq<bool>) returns (setopt: bool)
      requires |options| == 5
      ensures setopt == Accepted(options)
    {
      setopt := options[0];
      if !setopt {
        return;
      }
      setopt := options[1];
      if !setopt {
        return;
      }
      setopt := options[2];
      if !setopt {
        return;
      }
      setopt := options[3];
      if !setopt {
        return;
      }
      setopt := options[4];
    }

    /** Passes data on that has arrived, in pieces that fit into messages.  Nothing
        is accepted if the stream cannot be opened. */
    method CurlWrite(handle: Handle, size: nat, data: seq<byte>, opens: bool) returns (written: nat)
      requires Valid() && handle in state.running
      requires data != [] ==> size == 1
      modifies this, source`outstandingHandles
      ensures Valid() && state == Arrived(old(state), handle, data, opens)
      ensures written == if (handle in old(streams) && old(streams)[handle]) || opens then |data| else 0
      ensures old(log) <= log && Payload(log[|old(log)|..]) == (if written == |data| then data else [])
    {
      hide Host.Valid, Writes, Chunks, Payload, Arrived, Host.Data;
      RunningStream(state, handle);
      ArrivedParts(state, handle, data, opens);
      if !streams[handle] {
        if !opens {
          NothingMore(log);
          return 0;
        }
        log := log + [NewStream(handle)];
        streams := streams[handle := true];
      }
      DataKeepsValid(state, handle, data);
      state := state.Data(handle, data);
      WritePieces(handle, size, data);
      Unit(size, |data|);
      written := size * |data|;
      DataSent(handle, old(log), if old(streams)[handle] then [] else [NewStream(handle)], data);
    }

    method WritePieces(handle: Handle, size: nat, data: seq<byte>)
      requires data != [] ==> size == 1
      modifies this`log
      ensures log == old(log) + Writes(handle, Chunks(data))
    {
      hide *;
      NoPieces(handle);
      ghost var sent: seq<seq<byte>> := [];
      var bytesWritten := 0;
      assert data[0..] == data;
      while bytesWritten < |data|
        invariant bytesWritten <= |data|
        invariant Chunks(data) == sent + Chunks(data[bytesWritten..])
        invariant log == old(log) + Writes(handle, sent)
      {
        var remaining := |data| - bytesWritten;
        var n := if MAXIMUM_ARRAY_LENGTH < remaining then MAXIMUM_ARRAY_LENGTH else remaining;
        var piece := data[bytesWritten..bytesWritten + n];
        NextChunk(handle, data, bytesWritten, n, sent);
        PieceSent(handle, old(log), sent, piece);
        sent := sent + [piece];
        log := log + [Write(handle, piece)];
        assert size == 1;
        bytesWritten := bytesWritten + n;
      }
      assert data[bytesWritten..] == [];
    }

    /** One turn of the main loop.  curl performs its transfers exactly when it works on
        a download, a handle has been refused, or something has happened on a polled
        file; so once a handle has been refused it performs at every turn, those of
        later requests too. */
    method Turn(results: seq<PollList.Perform>, answer: PollList.Answer)
      requires Valid() && source.Valid() && PollList.Settles(results)
      modifies source`readFds, source`writeFds, source`excFds, source`maxFd, source`pollFds, source`polls,
               source`performed, source.pollFds
      ensures Valid() && state == old(state)
      ensures old(source.performed) < source.performed
         <==> || state.running != {} || (exists h :: Refused(state, h))
              || exists e :: e in old(source.pollFds) && old(e.revents) != {}
      ensures old(source.performed) < source.performed
              && results[PollList.Rounds(results) - 1].runningHandles == 0 && answer.Watch? ==>
        forall k :: 0 <= k < |source.pollFds| ==>
          source.pollFds[k].events == PollList.Mask(answer.read, answer.write, answer.exc, k)
    {
      hide Host.Valid, Refused;
      UnderWayExactly(state);
      source.Turn(results, answer);
    }

    /** Reads what curl reports about its downloads.  A finished download has its
        stream closed, after opening it if no data had arrived.  If curl does not
        give the handle back, the reports that follow are left unread. */
    method SourceCallback(reports: seq<Report>) returns (result: bool)
      requires Valid() && CanReport(state.running, reports)
      modifies this, source`outstandingHandles
      ensures Valid() && state == Reported(old(state), reports)
      ensures result <==> forall k :: 0 <= k < |reports| && reports[k].Finished? ==> reports[k].removed
    {
      hide Host.Valid, CanReport, Reported;
      ReadNone(state, reports);
      var k := 0;
      while k < |reports|
        invariant 0 <= k <= |reports|
        invariant Valid() && CanReport(state.running, reports[k..])
        invariant Reported(state, reports[k..]) == Reported(old(state), reports)
        invariant forall i :: 0 <= i < k && reports[i].Finished? ==> reports[i].removed
      {
        var report := reports[k];
        assert reports[k..][1..] == reports[k + 1..];
        if report.Other? {
          ReadOther(state, reports[k..]);
        } else {
          ReadFinished(state, reports[k..], report.handle, report.removed);
        }
        k := k + 1;
        if report.Finished? {
          var handle := report.handle;
          assert handle in streams;
          if !streams[handle] {
            log := log + [NewStream(handle)];
          }
          log := log + [DestroyStream(handle)];
          streams := streams - {handle};
          assert source.outstandingHandles > 0;
          source.outstandingHandles := source.outstandingHandles - 1;
          state := state.Done(handle, report.removed);
          if !report.removed {
            return false;
          }
        }
      }
      ReadNone(state, reports[k..]);
      result := true;
    }
  }

  lemma ReadNone(s: Host, reports: seq<Report>)
    requires s.Valid()
    ensures reports[0..] == reports
    ensures reports == [] ==> CanReport(s.running, reports) && Reported(s, reports) == s
  {
  }

  lemma ReadOther(s: Host, reports: seq<Report>)
    requires s.Valid() && reports != [] && CanReport(s.running, reports) && reports[0].Other?
    ensures CanReport(s.running, reports[1..])
    ensures Reported(s, reports) == Reported(s, reports[1..])
  {
    hide Host.Valid;
  }

  lemma ReadFinished(s: Host, reports: seq<Report>, h: Handle, removed: bool)
    requires s.Valid() && reports != [] && CanReport(s.running, reports) && reports[0] == Finished(h, removed)
    ensures h in s.running && h in s.streams && 0 < s.outstanding
    ensures s.Done(h, removed).Valid()
    ensures CanReport(s.Done(h, removed).running, reports[1..])
    ensures Reported(s, reports) == if removed then Reported(s.Done(h, removed), reports[1..]) else s.Done(h, removed)
  {
    hide Host.Valid;
    RunningStream(s, h);
    DoneKeepsValid(s, h, removed);
  }

  /** All options have been accepted. */
  predicate Accepted(options: seq<bool>) {
    forall k :: 0 <= k < |options| ==> options[k]
  }

  lemma Regroup<T>(a: seq<T>, b: seq<T>, c: seq<T>)
    ensures a + (b + c) == (a + b) + c
  {
  }

  lemma ArrivedParts(s: Host, h: Handle, data: seq<byte>, opens: bool)
    requires s.Valid() && h in s.running && h in s.streams && h in s.accepted
    ensures Arrived(s, h, data, opens) == if s.streams[h] || opens then s.Data(h, data) else s
    ensures var r := s.Data(h, data);
      && r.streams == s.streams[h := true] && r.outstanding == s.outstanding
      && r.log == s.log + (if s.streams[h] then [] else [NewStream(h)]) + Writes(h, Chunks(data))
  {
    hide Host.Valid, Writes, Chunks;
  }

  lemma DataSent(h: Handle, log: seq<Message>, opening: seq<Message>, data: seq<byte>)
    requires opening == [] || opening == [NewStream(h)]
    ensures var all := log + opening + Writes(h, Chunks(data));
      log <= all && Payload(all[|log|..]) == data
  {
    hide Payload, Writes, Chunks;
    var more := Writes(h, Chunks(data));
    assert (log + opening + more)[|log|..] == opening + more;
    PayloadJoin(opening, more);
    ChunksKeepData(h, data);
    OpenStream(h);
    NothingSent(h);
  }

  lemma NothingMore(log: seq<Message>)
    ensures Payload(log[|log|..]) == []
  {
  }

  lemma NoPieces(h: Handle)
    ensures Chunks([]) == [] && Writes(h, []) == []
  {
  }

  lemma NextChunk(h: Handle, data: seq<byte>, from: nat, n: nat, sent: seq<seq<byte>>)
    requires from < |data|
    requires n == if MAXIMUM_ARRAY_LENGTH < |data| - from then MAXIMUM_ARRAY_LENGTH else |data| - from
    ensures sent + Chunks(data[from..]) == sent + [data[from..from + n]] + Chunks(data[from + n..])
  {
    hide Writes;
    var rest := data[from..];
    assert rest[..n] == data[from..from + n] && rest[n..] == data[from + n..];
    if n == |rest| {
      assert rest[..n] == rest;
    }
    Regroup(sent, [rest[..n]], Chunks(rest[n..]));
  }

  lemma PieceSent(h: Handle, log: seq<Message>, sent: seq<seq<byte>>, piece: seq<byte>)
    ensures log + Writes(h, sent) + [Write(h, piece)] == log + Writes(h, sent + [piece])
  {
    assert Writes(h, sent + [piece]) == Writes(h, sent) + [Write(h, piece)];
    Regroup(log, Writes(h, sent), [Write(h, piece)]);
  }

  lemma Unit(size: nat, n: nat)
    requires n != 0 ==> size == 1
    ensures size * n == n
  {
  }
}
