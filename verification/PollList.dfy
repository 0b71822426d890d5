/** The files a browser host's event source polls for curl. */
module PollList {

  /** What can be waited for, and what can have happened, on a file. */
  datatype Condition = In | Pri | Out | Err | Hup

  /** A file to be polled.  It has an address, which the event source keeps. */
  class PollFd {
    var fd: nat
    var events: set<Condition>
    var revents: set<Condition>

    constructor (fd: nat)
      ensures this.fd == fd && events == {} && revents == {}
    {
      this.fd := fd;
      events := {};
      revents := {};
    }
  }

  /** The files curl wants to be watched, as far as it can tell. */
  datatype Answer =
    | Failure
    | Watch(read: set<nat>, write: set<nat>, exc: set<nat>, maxFd: int)

  /** What a file is to be polled for. */
  function Mask(read: set<nat>, write: set<nat>, exc: set<nat>, fd: nat): (mask: set<Condition>)
    ensures mask != {} <==> fd in read || fd in write || fd in exc
    ensures In in mask <==> fd in read
    ensures Hup in mask <==> fd in read
    ensures Out in mask <==> fd in write
    ensures Err in mask <==> mask != {}
    ensures Pri !in mask
  {
    (if fd in read then {In, Hup, Err} else {})
    + (if fd in write then {Out, Err} else {})
    + (if fd in exc then {Err} else {})
  }

  /** The entries that wait for something. */
  ghost function Waiting(entries: seq<PollFd>): set<PollFd>
    reads entries
  {
    set e | e in entries && e.events != {}
  }

  lemma OnlyWaiting(entries: seq<PollFd>, others: set<PollFd>)
    requires forall e :: e in entries ==> e !in others
    ensures others + Waiting(entries) == Waiting(entries) <==> others == {}
  {
    if e :| e in others {
      assert e !in Waiting(entries) && e in others + Waiting(entries);
    }
  }

  class CurlSource {
    var outstandingHandles: nat
    var readFds: set<nat>
    var writeFds: set<nat>
    var excFds: set<nat>
    var maxFd: int
    var pollFds: seq<PollFd>
    /** The files that have been added to the event source. */
    var polls: set<PollFd>
    /** How often curl has been let perform all its transfers. */
    var performed: nat

    /** Entry k is for file k. */
    ghost predicate InOrder()
      reads this, pollFds
    {
      forall k :: 0 <= k < |pollFds| ==> pollFds[k].fd == k
    }

    /** Exactly the entries that wait for something are polled. */
    ghost predicate Valid()
      reads this, pollFds
    {
      InOrder() && polls == Waiting(pollFds)
    }

    /** How many entries there are after a reset. */
    function SizeAfter(answer: Answer): nat
      reads this`pollFds
    {
      if answer.Watch? && 0 <= answer.maxFd then answer.maxFd + 1 else |pollFds|
    }

    constructor ()
      ensures Valid() && pollFds == [] && outstandingHandles == 0 && maxFd == -1
      ensures readFds == writeFds == excFds == {} && performed == 0
    {
      outstandingHandles := 0;
      readFds, writeFds, excFds := {}, {}, {};
      maxFd := -1;
      pollFds := [];
      polls := {};
      performed := 0;
    }

    /** The entries that wait for something from a place in the list on. */
    ghost function WaitingFrom(size: nat): set<PollFd>
      reads this`pollFds, pollFds
    {
      if size < |pollFds| then Waiting(pollFds[size..]) else {}
    }

    /** Brings the entries in line with what curl wants to be watched.  Afterwards
        again exactly the entries that wait for something are polled, unless the
        list has been cut off before an entry that waited for something: such an
        entry goes on being polled. */
    method ResetFds(answer: Answer)
      requires Valid()
      modifies this`readFds, this`writeFds, this`excFds, this`maxFd, this`pollFds, this`polls
      modifies pollFds
      ensures InOrder() && |pollFds| == old(SizeAfter(answer))
      ensures forall k :: 0 <= k < |pollFds| ==>
        if k < old(|pollFds|) then pollFds[k] == old(pollFds)[k] else fresh(pollFds[k])
      ensures polls == Waiting(pollFds) + old(WaitingFrom(SizeAfter(answer)))
      ensures Valid() <==> old(WaitingFrom(SizeAfter(answer))) == {}
      ensures answer.Failure? ==> forall e :: e in pollFds ==> unchanged(e)
      ensures answer.Failure? ==> readFds == writeFds == excFds == {} && maxFd == -1
      ensures answer.Watch? ==> Watch(readFds, writeFds, excFds, maxFd) == answer
      ensures answer.Watch? ==> forall k :: 0 <= k < |pollFds| ==>
        pollFds[k].events == Mask(readFds, writeFds, excFds, k)
      ensures answer.Watch? ==> forall k :: 0 <= k < |pollFds| && k < old(|pollFds|) ==> Updated(pollFds[k], k)
    {
      hide Mask, Waiting;
      readFds, writeFds, excFds := {}, {}, {};
      maxFd := -1;
      if answer.Failure? {
        return;
      }
      readFds, writeFds, excFds, maxFd := answer.read, answer.write, answer.exc, answer.maxFd;
      Follow(SizeAfter(answer));
    }

    /** Brings the entries in line with the files to be watched. */
    method Follow(ghost size: nat)
      requires Valid() && size == if 0 <= maxFd then maxFd + 1 else |pollFds|
      modifies this`pollFds, this`polls
      modifies pollFds
      ensures InOrder() && |pollFds| == size
      ensures forall k :: 0 <= k < |pollFds| ==>
        if k < old(|pollFds|) then pollFds[k] == old(pollFds)[k] else fresh(pollFds[k])
      ensures polls == Waiting(pollFds) + old(WaitingFrom(size))
      ensures Valid() <==> old(WaitingFrom(size)) == {}
      ensures forall k :: 0 <= k < |pollFds| ==> pollFds[k].events == Mask(readFds, writeFds, excFds, k)
      ensures forall k :: 0 <= k < |pollFds| && k < old(|pollFds|) ==> Updated(pollFds[k], k)
    {
      ghost var cutOff := WaitingFrom(size);
      hide Mask;
      if maxFd >= 0 {
        Resize(maxFd + 1, cutOff);
      }
      UpdateEntries(cutOff);
      OnlyWaiting(pollFds, cutOff);
      hide Waiting;
    }

    /** Sets what every entry waits for. */
    method UpdateEntries(ghost dangling: set<PollFd>)
      requires InOrder() && polls == dangling + Waiting(pollFds)
      requires forall e :: e in pollFds ==> e !in dangling
      modifies this`polls, pollFds
      ensures InOrder() && polls == dangling + Waiting(pollFds)
      ensures forall k :: 0 <= k < |pollFds| ==> Updated(pollFds[k], k)
    {
      var i := 0;
      while i < |pollFds|
        invariant 0 <= i <= |pollFds|
        invariant InOrder()
        invariant forall e :: e in polls <==> e in dangling || (e in pollFds && e.events != {})
        invariant forall k :: 0 <= k < i ==> Updated(pollFds[k], k)
        invariant forall k :: i <= k < |pollFds| ==> unchanged(pollFds[k])
      {
        UpdateEntry(pollFds[i]);
        i := i + 1;
      }
    }

    /** Sets what an entry waits for, and adds or removes it if that has changed from
        or to nothing. */
    method UpdateEntry(pos: PollFd)
      requires pos in polls <==> pos.events != {}
      modifies this`polls, pos`events, pos`revents
      ensures Updated(pos, pos.fd)
      ensures polls == if pos.events != {} then old(polls) + {pos} else old(polls) - {pos}
    {
      var events := {};
      if pos.fd in readFds {
        events := events + {In, Hup, Err};
      }
      if pos.fd in writeFds {
        events := events + {Out, Err};
      }
      if pos.fd in excFds {
        events := events + {Err};
      }
      assert events == Mask(readFds, writeFds, excFds, pos.fd);
      // No change.
      if events == pos.events {
        return;
      }
      // Changed, but polled already.
      if events != {} && pos.events != {} {
        pos.events := events;
        return;
      }
      pos.events := events;
      if events != {} {
        assert pos !in polls;
        polls := polls + {pos};
      } else {
        assert pos in polls;
        polls := polls - {pos};
        pos.revents := {};
      }
    }

    /** What an entry waits for is what its file is watched for; what has happened
        is forgotten when it stops being polled. */
    twostate predicate Updated(e: PollFd, fd: nat)
      reads this, e
    {
      && e.events == Mask(readFds, writeFds, excFds, fd)
      && e.revents == if e.events == {} && old(e.events) != {} then {} else old(e.revents)
    }

    /** Cuts the list of entries off, or adds entries that wait for nothing. */
    method Resize(size: nat, ghost cutOff: set<PollFd>)
      requires Valid()
      requires cutOff == if size < |pollFds| then Waiting(pollFds[size..]) else {}
      modifies this`pollFds
      ensures InOrder() && |pollFds| == size
      ensures forall k :: 0 <= k < size && k < old(|pollFds|) ==> pollFds[k] == old(pollFds)[k]
      ensures forall k :: old(|pollFds|) <= k < size ==> fresh(pollFds[k])
      ensures polls == cutOff + Waiting(pollFds)
      ensures forall e :: e in pollFds ==> e !in cutOff
      ensures polls == Waiting(pollFds) <==> cutOff == {}
    {
      if size <= |pollFds| {
        assert pollFds == pollFds[..size] + pollFds[size..];
        pollFds := pollFds[..size];
      }
      while |pollFds| < size
        invariant |pollFds| <= size && InOrder()
        invariant forall k :: 0 <= k < |pollFds| && k < old(|pollFds|) ==> pollFds[k] == old(pollFds)[k]
        invariant forall k :: old(|pollFds|) <= k < |pollFds| ==> fresh(pollFds[k])
        invariant |pollFds| == size || old(|pollFds|) <= |pollFds|
        invariant polls == cutOff + Waiting(pollFds)
      {
        var e := new PollFd(|pollFds|);
        pollFds := pollFds + [e];
      }
    }

    /** Sorts the files on which something has happened, and tells whether to go on. */
    method Check() returns (ready: bool)
      requires InOrder()
      modifies this`readFds, this`writeFds, this`excFds
      ensures forall fd: nat :: fd in readFds <==>
        fd < |pollFds| && (In in pollFds[fd].revents || Pri in pollFds[fd].revents)
      ensures forall fd: nat :: fd in writeFds <==> fd < |pollFds| && Out in pollFds[fd].revents
      ensures forall fd: nat :: fd in excFds <==>
        fd < |pollFds| && (Err in pollFds[fd].revents || Hup in pollFds[fd].revents)
      ensures ready <==> 0 < outstandingHandles || exists e :: e in pollFds && e.revents != {}
    {
      readFds, writeFds, excFds := {}, {}, {};
      var pending := false;
      var i := 0;
      while i < |pollFds|
        invariant 0 <= i <= |pollFds|
        invariant forall fd: nat :: fd in readFds <==>
          fd < i && (In in pollFds[fd].revents || Pri in pollFds[fd].revents)
        invariant forall fd: nat :: fd in writeFds <==> fd < i && Out in pollFds[fd].revents
        invariant forall fd: nat :: fd in excFds <==>
          fd < i && (Err in pollFds[fd].revents || Hup in pollFds[fd].revents)
        invariant pending <==> exists k :: 0 <= k < i && pollFds[k].revents != {}
      {
        var pos := pollFds[i];
        i := i + 1;
        if pos.revents == {} {
          continue;
        }
        pending := true;
        if In in pos.revents || Pri in pos.revents {
          readFds := readFds + {pos.fd};
        }
        if Out in pos.revents {
          writeFds := writeFds + {pos.fd};
        }
        if Err in pos.revents || Hup in pos.revents {
          excFds := excFds + {pos.fd};
        }
      }
      ready := pending || outstandingHandles > 0;
    }

    /** Before polling: the entries are brought in line, and the source is ready at
        once if curl names a time to wait. */
    method Prepare(answer: Answer, timeout: Timeout) returns (ready: bool, wait: int)
      requires Valid()
      modifies this`readFds, this`writeFds, this`excFds, this`maxFd, this`pollFds, this`polls
      modifies pollFds
      ensures wait == if timeout.Wait? then timeout.milliseconds else -1
      ensures ready <==> wait != -1
      ensures |pollFds| == old(SizeAfter(answer))
      ensures answer.Watch? ==> forall k :: 0 <= k < |pollFds| ==>
        pollFds[k].events == Mask(answer.read, answer.write, answer.exc, k)
      ensures answer.Failure? ==> pollFds == old(pollFds) && forall e :: e in pollFds ==> unchanged(e)
      ensures InOrder() && polls == Waiting(pollFds) + old(WaitingFrom(SizeAfter(answer)))
      ensures Valid() <==> old(WaitingFrom(SizeAfter(answer))) == {}
    {
      ResetFds(answer);
      wait := if timeout.Wait? then timeout.milliseconds else -1;
      ready := wait != -1;
    }

    /** When the source is ready: curl performs its transfers until it does not ask for
        more; if none is left the entries are brought in line. */
    method Dispatch(results: seq<Perform>, answer: Answer) returns (result: bool)
      requires Valid() && Settles(results)
      modifies this`readFds, this`writeFds, this`excFds, this`maxFd, this`pollFds, this`polls, this`performed
      modifies pollFds
      ensures performed == old(performed) + Rounds(results)
      ensures results[Rounds(results) - 1].runningHandles != 0 ==>
        Valid() && pollFds == old(pollFds) && polls == old(polls) && forall e :: e in pollFds ==> unchanged(e)
      ensures results[Rounds(results) - 1].runningHandles == 0 ==>
        && polls == Waiting(pollFds) + old(WaitingFrom(SizeAfter(answer)))
        && |pollFds| == old(SizeAfter(answer))
        && (answer.Watch? ==> forall k :: 0 <= k < |pollFds| ==>
              pollFds[k].events == Mask(answer.read, answer.write, answer.exc, k))
      ensures result
    {
      var i := 0;
      performed := performed + 1;
      while results[i].again
        invariant 0 <= i < |results| && Settles(results[i..])
        invariant Rounds(results) == i + Rounds(results[i..])
        invariant performed == old(performed) + i + 1
        modifies this`performed
        decreases |results| - i
      {
        assert results[i..][1..] == results[i + 1..];
        i := i + 1;
        performed := performed + 1;
      }
      if results[i].runningHandles == 0 {
        ResetFds(answer);
      }
      result := true;
    }

    /** What the main loop does with the source after polling.  While anything is under
        way curl performs its transfers at every turn, and so begins those of every
        request, whether or not an idle callback has been queued for it. */
    method Turn(results: seq<Perform>, answer: Answer)
      requires Valid() && Settles(results)
      modifies this`readFds, this`writeFds, this`excFds, this`maxFd, this`pollFds, this`polls, this`performed
      modifies pollFds
      ensures old(performed) < performed
         <==> 0 < outstandingHandles || exists e :: e in old(pollFds) && old(e.revents) != {}
      ensures performed == old(performed) ==>
        pollFds == old(pollFds) && polls == old(polls) && forall e :: e in pollFds ==> unchanged(e)
      ensures old(performed) < performed ==> performed == old(performed) + Rounds(results)
      ensures old(performed) < performed && results[Rounds(results) - 1].runningHandles == 0 ==>
        && |pollFds| == old(SizeAfter(answer))
        && (answer.Watch? ==> forall k :: 0 <= k < |pollFds| ==>
              pollFds[k].events == Mask(answer.read, answer.write, answer.exc, k))
    {
      var ready := Check();
      if ready {
        var _ := Dispatch(results, answer);
      }
    }
  }

  /** What curl answers when it has performed its transfers: whether it wants to be
      called again at once, and how many of them go on. */
  datatype Perform = Perform(again: bool, runningHandles: nat)

  /** curl stops asking at some time. */
  predicate Settles(results: seq<Perform>) {
    results != [] && (results[0].again ==> Settles(results[1..]))
  }

  /** How often curl is called. */
  function Rounds(results: seq<Perform>): (n: nat)
    requires Settles(results)
    ensures 1 <= n <= |results| && !results[n - 1].again && forall i :: 0 <= i < n - 1 ==> results[i].again
  {
    if results[0].again then 1 + Rounds(results[1..]) else 1
  }

  /** How long curl wants to wait, if it can tell. */
  datatype Timeout = Unknown | Wait(milliseconds: int)

  /** Something is watched, and then only what comes before it: it goes on being
      polled, though it is not in the list any more. */
  method CutOffWhilePolled() returns (source: CurlSource)
    ensures !source.Valid()
    ensures exists e :: e in source.polls && e !in source.pollFds
  {
    source := new CurlSource();
    source.ResetFds(Watch({5}, {}, {}, 5));
    var e := source.pollFds[5];
    assert e.events != {};
    assert e in source.WaitingFrom(1) by {
      assert source.pollFds[1..][4] == e;
    }
    source.ResetFds(Watch({0}, {}, {}, 0));
    assert e in source.polls;
    assert |source.pollFds| == 1 && source.pollFds[0].fd == 0;
  }
}
