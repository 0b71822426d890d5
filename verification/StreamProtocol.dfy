/** The messages by which a browser host hands the data of its downloads on to
    the browser. */
module StreamMessages {
  import opened Bytes

  /** The address of a curl easy handle; 0 is no handle. */
  type Handle = nat

  const NO_HANDLE: Handle := 0

  /** The longest array a D-Bus message can hold. */
  const MAXIMUM_ARRAY_LENGTH: nat := 0x400_0000

  datatype Message =
    | NewStream(handle: Handle)
    | Write(handle: Handle, data: seq<byte>)
    | DestroyStream(handle: Handle)

  /** The messages about one handle. */
  function MessagesOf(h: Handle, log: seq<Message>): seq<Message> {
    if |log| == 0 then []
    else
      var last := log[|log| - 1];
      MessagesOf(h, log[..|log| - 1]) + if last.handle == h then [last] else []
  }

  lemma {:induction false} MessagesJoin(h: Handle, a: seq<Message>, b: seq<Message>)
    ensures MessagesOf(h, a + b) == MessagesOf(h, a) + MessagesOf(h, b)
    decreases |b|
  {
    if |b| == 0 {
      assert a + b == a;
    } else {
      var c := b[..|b| - 1];
      MessagesJoin(h, a, c);
      assert (a + b)[..|a + b| - 1] == a + c;
    }
  }

  lemma {:induction false} OnlyAbout(h: Handle, ms: seq<Message>)
    requires forall m :: m in ms ==> m.handle == h
    ensures MessagesOf(h, ms) == ms
    ensures forall h' :: h' != h ==> MessagesOf(h', ms) == []
    decreases |ms|
  {
    if |ms| != 0 {
      OnlyAbout(h, ms[..|ms| - 1]);
    }
  }

  /** The data written by some messages. */
  function Payload(ms: seq<Message>): seq<byte> {
    if |ms| == 0 then []
    else
      var last := ms[|ms| - 1];
      Payload(ms[..|ms| - 1]) + if last.Write? then last.data else []
  }

  lemma {:induction false} PayloadJoin(a: seq<Message>, b: seq<Message>)
    ensures Payload(a + b) == Payload(a) + Payload(b)
    decreases |b|
  {
    if |b| == 0 {
      assert a + b == a;
    } else {
      var c := b[..|b| - 1];
      PayloadJoin(a, c);
      assert (a + b)[..|a + b| - 1] == a + c;
    }
  }

  /** Data cut into pieces that fit into a message. */
  function Chunks(data: seq<byte>): (chunks: seq<seq<byte>>)
    ensures forall c :: c in chunks ==> 0 < |c| <= MAXIMUM_ARRAY_LENGTH
  {
    if data == [] then []
    else if |data| <= MAXIMUM_ARRAY_LENGTH then [data]
    else [data[..MAXIMUM_ARRAY_LENGTH]] + Chunks(data[MAXIMUM_ARRAY_LENGTH..])
  }

  function Writes(h: Handle, chunks: seq<seq<byte>>): (ms: seq<Message>)
    ensures |ms| == |chunks|
    ensures forall i :: 0 <= i < |ms| ==> ms[i] == Write(h, chunks[i])
  {
    seq(|chunks|, i requires 0 <= i < |chunks| => Write(h, chunks[i]))
  }

  lemma WritesFirst(h: Handle, first: seq<byte>, rest: seq<seq<byte>>)
    ensures Writes(h, []) == []
    ensures Writes(h, [first] + rest) == [Write(h, first)] + Writes(h, rest)
  {
  }

  lemma PayloadOfOne(h: Handle, data: seq<byte>)
    ensures Payload([Write(h, data)]) == data && Payload([]) == []
  {
    assert [Write(h, data)][..0] == [];
  }

  /** The pieces put together are the data. */
  lemma {:induction false} ChunksKeepData(h: Handle, data: seq<byte>)
    ensures Payload(Writes(h, Chunks(data))) == data
    decreases |data|
  {
    hide Payload, Writes;
    WritesFirst(h, data, []);
    PayloadOfOne(h, data);
    if data == [] {
    } else if |data| <= MAXIMUM_ARRAY_LENGTH {
      assert Chunks(data) == [data] + [];
      assert [Write(h, data)] + [] == [Write(h, data)];
    } else {
      var first, rest := data[..MAXIMUM_ARRAY_LENGTH], data[MAXIMUM_ARRAY_LENGTH..];
      ChunksKeepData(h, rest);
      assert Chunks(data) == [first] + Chunks(rest);
      hide Chunks;
      WritesFirst(h, first, Chunks(rest));
      PayloadJoin([Write(h, first)], Writes(h, Chunks(rest)));
      PayloadOfOne(h, first);
      assert data == first + rest;
    }
  }

  /** Every piece but the last is as long as a message can hold. */
  lemma {:induction false} ChunksFull(data: seq<byte>, i: nat)
    requires i + 1 < |Chunks(data)|
    ensures |Chunks(data)[i]| == MAXIMUM_ARRAY_LENGTH
    decreases i
  {
    if MAXIMUM_ARRAY_LENGTH < |data| {
      var rest := data[MAXIMUM_ARRAY_LENGTH..];
      assert Chunks(data) == [data[..MAXIMUM_ARRAY_LENGTH]] + Chunks(rest);
      if i > 0 {
        ChunksFull(rest, i - 1);
      }
    }
  }

  /** The messages of a stream that has been opened and not yet closed: first
      `NewStream`, then writes of admissible size. */
  predicate IsOpenStream(h: Handle, ms: seq<Message>) {
    && 0 < |ms|
    && ms[0] == NewStream(h)
    && forall i :: 0 < i < |ms| ==>
      ms[i].Write? && ms[i].handle == h && 0 < |ms[i].data| <= MAXIMUM_ARRAY_LENGTH
  }

  /** The messages of a stream from beginning to end. */
  predicate IsWholeStream(h: Handle, ms: seq<Message>) {
    0 < |ms| && ms[|ms| - 1] == DestroyStream(h) && IsOpenStream(h, ms[..|ms| - 1])
  }

  /** One whole stream after the other. */
  ghost predicate AreWholeStreams(h: Handle, ms: seq<Message>)
    decreases |ms|
  {
    ms == [] || exists k :: 0 <= k < |ms| && AreWholeStreams(h, ms[..k]) && IsWholeStream(h, ms[k..])
  }

  /** What has been sent of a stream at some time. */
  predicate IsStreamPrefix(h: Handle, ms: seq<Message>) {
    ms == [] || IsOpenStream(h, ms) || IsWholeStream(h, ms)
  }
}

/** Downloads as a state machine.  Its environment, curl and the browser, chooses
    the steps. */
module StreamProtocol {
  import opened Bytes
  import opened StreamMessages

  /** The state of a host, with its history and what curl keeps. */
  datatype Host = Host(
    // The table of streams, with the streams that have been opened, and the
    // number of downloads under way.
    streams: map<Handle, bool>,
    outstanding: nat,
    // The messages sent; for every handle, how many there were when its latest
    // stream entered the table, and the data accepted since.
    log: seq<Message>,
    began: map<Handle, nat>,
    accepted: map<Handle, seq<byte>>,
    // The handles not yet freed, and those curl works on.
    live: set<Handle>,
    running: set<Handle>,
    // The handles left in the table by requests that failed; how many requests
    // failed after the table had been changed, and how many of these had not
    // got a handle.
    failed: set<Handle>,
    errors: nat,
    withoutHandle: nat)
  {
    /** The messages sent for the latest stream of a handle. */
    function Sent(h: Handle): seq<Message>
      requires h in began && began[h] <= |log|
    {
      MessagesOf(h, log[began[h]..])
    }

    function Enter(h: Handle): Host {
      this.(streams := streams[h := false], began := began[h := |log|], accepted := accepted[h := []],
            live := live + ({h} - {NO_HANDLE}))
    }

    /** A request to get a URL. */
    function GetUrl(h: Handle, memory: bool, options: bool, added: bool): Host {
      if !memory then
        this.(live := live + ({h} - {NO_HANDLE}))
      else if !options then
        Enter(h).(failed := failed + {h}, errors := errors + 1,
                  withoutHandle := withoutHandle + if h == NO_HANDLE then 1 else 0)
      else
        Enter(h).(outstanding := outstanding + 1, running := if added then running + {h} else running)
    }

    /** Messages for a stream in the table, which opens it if need be. */
    function Send(h: Handle, ms: seq<Message>): Host
      requires h in streams
    {
      this.(log := log + (if streams[h] then [] else [NewStream(h)]) + ms, streams := streams[h := true])
    }

    /** Data that arrived and was accepted. */
    function Data(h: Handle, data: seq<byte>): Host
      requires h in streams && h in accepted
    {
      Send(h, Writes(h, Chunks(data))).(accepted := accepted[h := accepted[h] + data])
    }

    /** The end of a download. */
    function Done(h: Handle, removed: bool): Host
      requires h in streams && 0 < outstanding
    {
      Send(h, [DestroyStream(h)]).(
        streams := streams - {h},
        outstanding := outstanding - 1,
        running := running - {h},
        live := if removed then live - {h} else live)
    }

    /** The invariant of every run. */
    ghost predicate Valid() {
      Handles() && Counts() && Streams() && Earlier()
    }

    ghost predicate Handles() {
      && streams.Keys <= began.Keys
      && began.Keys == accepted.Keys
      && (NO_HANDLE in streams ==> !streams[NO_HANDLE])
      && HandlesAgree(streams.Keys, live, running, failed)
    }

    ghost predicate Counts() {
      CountsAgree(streams.Keys, outstanding, failed, errors, withoutHandle)
    }

    ghost predicate Streams() {
      forall h :: h in began ==> h in accepted && StreamValid(h)
    }

    ghost predicate Earlier() {
      EarlierStreams(log, began)
    }

    ghost predicate StreamValid(h: Handle)
      requires h in began && h in accepted
    {
      && began[h] <= |log|
      && Payload(Sent(h)) == accepted[h]
      && if h !in streams then IsWholeStream(h, Sent(h))
         else if streams[h] then IsOpenStream(h, Sent(h))
         else Sent(h) == []
    }
  }

  /** Handles in the table are not free; curl works on those that have not been
      left behind by a failure. */
  ghost predicate HandlesAgree(table: set<Handle>, live: set<Handle>, running: set<Handle>, failed: set<Handle>) {
    && (forall h :: h in table && h != NO_HANDLE ==> h in live)
    && NO_HANDLE !in live
    && (forall h :: h in running ==> h in table && h !in failed && h != NO_HANDLE)
  }

  /** The number of downloads under way is the number of streams in the table
      without those left there by failures. */
  ghost predicate CountsAgree(table: set<Handle>, outstanding: nat, failed: set<Handle>, errors: nat,
                              withoutHandle: nat)
  {
    && failed <= table
    && outstanding + |failed| == |table|
    && (NO_HANDLE in failed <==> 0 < withoutHandle)
    && (NO_HANDLE in table ==> NO_HANDLE in failed)
    && errors == |failed| + if withoutHandle == 0 then 0 else withoutHandle - 1
  }

  /** Before a handle's latest stream there were only whole streams of it. */
  ghost predicate EarlierStreams(log: seq<Message>, began: map<Handle, nat>) {
    && (forall m :: m in log ==> m.handle in began)
    && (forall h :: h in began ==> began[h] <= |log| && AreWholeStreams(h, MessagesOf(h, log[..began[h]])))
  }

  const INITIAL := Host(map[], 0, [], map[], map[], {}, {}, {}, 0, 0)

  lemma InitialValid()
    ensures INITIAL.Valid()
  {
  }

  lemma SentGrows(s: Host, h: Handle, ms: seq<Message>, h': Handle)
    requires h' in s.began && s.began[h'] <= |s.log|
    requires forall m :: m in ms ==> m.handle == h
    ensures s.(log := s.log + ms).Sent(h') == s.Sent(h') + if h' == h then ms else []
  {
    var k := s.began[h'];
    assert (s.log + ms)[k..] == s.log[k..] + ms;
    MessagesJoin(h', s.log[k..], ms);
    OnlyAbout(h, ms);
  }

  /** curl hands out a handle that is not in use, or none; without a handle no
      option can be set. */
  predicate CanGetUrl(s: Host, h: Handle, memory: bool, options: bool) {
    h !in s.live && (h == NO_HANDLE ==> !memory || !options)
  }

  lemma CountFailure(table: set<Handle>, outstanding: nat, failed: set<Handle>, errors: nat, withoutHandle: nat,
                     h: Handle)
    requires CountsAgree(table, outstanding, failed, errors, withoutHandle) && (h in table ==> h == NO_HANDLE)
    ensures CountsAgree(table + {h}, outstanding, failed + {h}, errors + 1,
                        withoutHandle + if h == NO_HANDLE then 1 else 0)
  {
    if h in table {
      assert table + {h} == table && failed + {h} == failed;
    }
  }

  lemma CountStart(table: set<Handle>, outstanding: nat, failed: set<Handle>, errors: nat, withoutHandle: nat,
                   h: Handle)
    requires CountsAgree(table, outstanding, failed, errors, withoutHandle) && h !in table && h != NO_HANDLE
    ensures CountsAgree(table + {h}, outstanding + 1, failed, errors, withoutHandle)
  {
  }

  lemma CountEnd(table: set<Handle>, outstanding: nat, failed: set<Handle>, errors: nat, withoutHandle: nat,
                 h: Handle)
    requires CountsAgree(table, outstanding, failed, errors, withoutHandle) && h in table && h !in failed
    ensures 0 < outstanding && CountsAgree(table - {h}, outstanding - 1, failed, errors, withoutHandle)
  {
    ProperSubset(failed, table - {h});
    assert table == (table - {h}) + {h};
  }

  lemma ProperSubset(a: set<Handle>, b: set<Handle>)
    requires a <= b
    ensures |a| <= |b|
  {
    assert b == a + (b - a);
    assert |a + (b - a)| == |a| + |b - a|;
  }

  lemma GetUrlKeepsStreams(s: Host, h: Handle, memory: bool, options: bool, added: bool)
    requires s.Streams()
    ensures s.GetUrl(h, memory, options, added).Streams()
  {
    hide MessagesOf, Payload, IsOpenStream, IsWholeStream;
    var r := s.GetUrl(h, memory, options, added);
    NothingSent(h);
    forall h' | h' in r.began
      ensures h' in r.accepted && r.StreamValid(h')
    {
      if h' == h && memory {
        assert r.log[|s.log|..] == [];
      } else {
        assert s.StreamValid(h');
        assert r.Sent(h') == s.Sent(h');
      }
    }
  }

  lemma {:induction false} NoneAbout(h: Handle, log: seq<Message>)
    requires forall m :: m in log ==> m.handle != h
    ensures MessagesOf(h, log) == []
    decreases |log|
  {
    if |log| != 0 {
      NoneAbout(h, log[..|log| - 1]);
    }
  }

  /** When a handle is used again, its last stream has become an earlier one. */
  lemma EnterEndsStream(s: Host, h: Handle)
    requires s.Streams() && s.Earlier() && (h in s.streams ==> h == NO_HANDLE)
    requires NO_HANDLE in s.streams && h == NO_HANDLE ==> !s.streams[h]
    ensures AreWholeStreams(h, MessagesOf(h, s.log))
  {
    hide MessagesOf, AreWholeStreams, IsWholeStream, IsOpenStream, Payload;
    if h in s.began {
      assert s.StreamValid(h);
      var k := s.began[h];
      var before, last := s.log[..k], s.log[k..];
      assert AreWholeStreams(h, MessagesOf(h, before));
      assert MessagesOf(h, last) == [] || IsWholeStream(h, MessagesOf(h, last));
      hide *;
      MessagesJoin(h, before, last);
      assert s.log == before + last;
      OneMoreStream(h, MessagesOf(h, before), MessagesOf(h, last));
    } else {
      NoneAbout(h, s.log);
      NoStreams(h);
    }
  }

  lemma NoStreams(h: Handle)
    ensures AreWholeStreams(h, [])
  {
  }

  lemma OneMoreStream(h: Handle, before: seq<Message>, last: seq<Message>)
    requires AreWholeStreams(h, before) && (last == [] || IsWholeStream(h, last))
    ensures AreWholeStreams(h, before + last)
  {
    var all := before + last;
    if last == [] {
      assert all == before;
    } else {
      assert all[..|before|] == before && all[|before|..] == last;
    }
  }

  lemma EnteringKeepsEarlier(log: seq<Message>, began: map<Handle, nat>, h: Handle)
    requires EarlierStreams(log, began) && AreWholeStreams(h, MessagesOf(h, log))
    ensures EarlierStreams(log, began[h := |log|])
  {
    hide MessagesOf, AreWholeStreams;
    assert log[..|log|] == log;
  }

  lemma SendingKeepsEarlier(log: seq<Message>, began: map<Handle, nat>, h: Handle, ms: seq<Message>)
    requires EarlierStreams(log, began) && h in began
    requires forall m :: m in ms ==> m.handle == h
    ensures EarlierStreams(log + ms, began)
  {
    hide MessagesOf, AreWholeStreams;
    forall h' | h' in began
      ensures began[h'] <= |log| && (log + ms)[..began[h']] == log[..began[h']]
    {
    }
  }

  lemma GetUrlKeepsEarlier(s: Host, h: Handle, memory: bool, options: bool, added: bool)
    requires s.Streams() && s.Earlier() && (h in s.streams ==> h == NO_HANDLE)
    requires NO_HANDLE in s.streams && h == NO_HANDLE ==> !s.streams[h]
    ensures s.GetUrl(h, memory, options, added).Earlier()
  {
    EnterEndsStream(s, h);
    EnteringKeepsEarlier(s.log, s.began, h);
    hide EarlierStreams, MessagesOf, AreWholeStreams, Host.Streams;
  }

  lemma SendKeepsEarlier(s: Host, h: Handle, ms: seq<Message>)
    requires s.Earlier() && h in s.streams && h in s.began
    requires forall m :: m in ms ==> m.handle == h
    ensures s.Send(h, ms).Earlier()
  {
    hide EarlierStreams;
    var all := (if s.streams[h] then [] else [NewStream(h)]) + ms;
    SendingKeepsEarlier(s.log, s.began, h, all);
    assert s.Send(h, ms).log == s.log + all;
  }

  lemma GetUrlTables(s: Host, h: Handle, memory: bool, options: bool, added: bool)
    ensures var r := s.GetUrl(h, memory, options, added);
      && r.streams.Keys == (if memory then s.streams.Keys + {h} else s.streams.Keys)
      && r.began.Keys == (if memory then s.began.Keys + {h} else s.began.Keys)
      && r.accepted.Keys == (if memory then s.accepted.Keys + {h} else s.accepted.Keys)
      && ((NO_HANDLE in s.streams ==> !s.streams[NO_HANDLE]) ==> NO_HANDLE in r.streams ==> !r.streams[NO_HANDLE])
      && r.live == s.live + ({h} - {NO_HANDLE})
      && r.running == (if memory && options && added then s.running + {h} else s.running)
      && r.failed == (if memory && !options then s.failed + {h} else s.failed)
  {
  }

  lemma GetUrlKeepsHandles(s: Host, h: Handle, memory: bool, options: bool, added: bool)
    requires s.Handles() && s.failed <= s.streams.Keys && CanGetUrl(s, h, memory, options)
    ensures s.GetUrl(h, memory, options, added).Handles()
  {
    GetUrlTables(s, h, memory, options, added);
    hide Host.GetUrl;
    var r := s.GetUrl(h, memory, options, added);
    assert h !in s.running;
  }

  /** What a request changes of the counts: nothing, a download, or a failure. */
  lemma GetUrlNumbers(s: Host, h: Handle, memory: bool, options: bool, added: bool)
    ensures var r := s.GetUrl(h, memory, options, added);
      if !memory then
        r.streams.Keys == s.streams.Keys && r.failed == s.failed && r.outstanding == s.outstanding
        && r.errors == s.errors && r.withoutHandle == s.withoutHandle
      else if options then
        r.streams.Keys == s.streams.Keys + {h} && r.failed == s.failed && r.outstanding == s.outstanding + 1
        && r.errors == s.errors && r.withoutHandle == s.withoutHandle
      else
        r.streams.Keys == s.streams.Keys + {h} && r.failed == s.failed + {h} && r.outstanding == s.outstanding
        && r.errors == s.errors + 1 && r.withoutHandle == s.withoutHandle + (if h == NO_HANDLE then 1 else 0)
  {
  }

  lemma GetUrlKeepsCounts(s: Host, h: Handle, memory: bool, options: bool, added: bool)
    requires s.Counts() && (h in s.streams.Keys ==> h == NO_HANDLE) && (h == NO_HANDLE ==> !memory || !options)
    ensures s.GetUrl(h, memory, options, added).Counts()
  {
    hide *;
    GetUrlNumbers(s, h, memory, options, added);
    CountsMeans(s);
    CountsMeans(s.GetUrl(h, memory, options, added));
    if memory && options {
      CountStart(s.streams.Keys, s.outstanding, s.failed, s.errors, s.withoutHandle, h);
    } else if memory {
      CountFailure(s.streams.Keys, s.outstanding, s.failed, s.errors, s.withoutHandle, h);
    }
  }

  lemma CountsMeans(s: Host)
    ensures s.Counts() <==> CountsAgree(s.streams.Keys, s.outstanding, s.failed, s.errors, s.withoutHandle)
  {
    hide CountsAgree;
  }

  lemma GetUrlKeepsValid(s: Host, h: Handle, memory: bool, options: bool, added: bool)
    requires s.Valid() && CanGetUrl(s, h, memory, options)
    ensures s.GetUrl(h, memory, options, added).Valid()
  {
    Unused(s, h);
    hide Host.Handles, Host.Counts, Host.Streams, Host.Earlier, Host.GetUrl;
    GetUrlKeepsHandles(s, h, memory, options, added);
    GetUrlKeepsCounts(s, h, memory, options, added);
    GetUrlKeepsStreams(s, h, memory, options, added);
    GetUrlKeepsEarlier(s, h, memory, options, added);
  }

  lemma Unused(s: Host, h: Handle)
    requires s.Handles() && s.Counts() && h !in s.live
    ensures h in s.streams.Keys ==> h == NO_HANDLE
    ensures h in s.streams ==> h == NO_HANDLE && !s.streams[h]
    ensures s.failed <= s.streams.Keys
  {
  }

  lemma NothingSent(h: Handle)
    ensures MessagesOf(h, []) == [] && Payload([]) == []
  {
  }

  lemma {:induction false} WritesStayOpen(h: Handle, ms: seq<Message>, data: seq<byte>)
    requires IsOpenStream(h, ms)
    ensures IsOpenStream(h, ms + Writes(h, Chunks(data)))
    ensures Payload(ms + Writes(h, Chunks(data))) == Payload(ms) + data
  {
    var more := Writes(h, Chunks(data));
    forall i | 0 <= i < |more|
      ensures more[i].Write? && more[i].handle == h && 0 < |more[i].data| <= MAXIMUM_ARRAY_LENGTH
    {
      assert Chunks(data)[i] in Chunks(data);
    }
    PayloadJoin(ms, more);
    ChunksKeepData(h, data);
  }

  lemma OpenStream(h: Handle)
    ensures IsOpenStream(h, [NewStream(h)]) && Payload([NewStream(h)]) == []
  {
    assert [NewStream(h)][..0] == [];
  }

  lemma Closed(h: Handle, ms: seq<Message>)
    requires IsOpenStream(h, ms)
    ensures IsWholeStream(h, ms + [DestroyStream(h)])
    ensures Payload(ms + [DestroyStream(h)]) == Payload(ms)
  {
    assert (ms + [DestroyStream(h)])[..|ms|] == ms;
  }

  /** What has been sent once a stream is open. */
  function Opened(s: Host, h: Handle): seq<Message>
    requires h in s.streams && h in s.began && s.began[h] <= |s.log|
  {
    s.Sent(h) + if s.streams[h] then [] else [NewStream(h)]
  }

  lemma SendEffect(s: Host, h: Handle, ms: seq<Message>, h': Handle)
    requires s.Streams() && h in s.streams && h in s.began && h' in s.began
    requires forall m :: m in ms ==> m.handle == h
    ensures s.began[h] <= |s.log| && s.began[h'] <= |s.log|
    ensures s.Send(h, ms).Sent(h') == if h' == h then Opened(s, h) + ms else s.Sent(h')
  {
    assert s.StreamValid(h) && s.StreamValid(h');
    var opening := if s.streams[h] then [] else [NewStream(h)];
    var all := opening + ms;
    SentGrows(s, h, all, h');
    assert s.log + opening + ms == s.log + all;
    hide MessagesOf, Payload, IsOpenStream, IsWholeStream;
    assert s.Send(h, ms).Sent(h') == s.(log := s.log + all).Sent(h');
    assert s.Sent(h) + all == Opened(s, h) + ms;
  }

  lemma OpenedIsOpen(s: Host, h: Handle)
    requires s.Streams() && h in s.streams && h in s.began
    ensures s.began[h] <= |s.log| && h in s.accepted
    ensures IsOpenStream(h, Opened(s, h)) && Payload(Opened(s, h)) == s.accepted[h]
  {
    assert s.StreamValid(h);
    OpenStream(h);
    hide MessagesOf, Payload, IsOpenStream, IsWholeStream, Host.Sent;
    if s.streams[h] {
      assert Opened(s, h) == s.Sent(h);
    } else {
      assert Opened(s, h) == [NewStream(h)];
      NothingSent(h);
    }
  }

  lemma DataKeepsStreams(s: Host, h: Handle, data: seq<byte>)
    requires s.Streams() && h in s.streams && h in s.began
    ensures h in s.accepted && s.Data(h, data).Streams()
  {
    hide MessagesOf, Payload, IsOpenStream, IsWholeStream, Opened, Chunks, Writes;
    OpenedIsOpen(s, h);
    WritesStayOpen(h, Opened(s, h), data);
    AllAbout(h, data);
    var ms := Writes(h, Chunks(data));
    var r := s.Data(h, data);
    forall h' | h' in r.began
      ensures h' in r.accepted && r.StreamValid(h')
    {
      assert s.StreamValid(h');
      SendEffect(s, h, ms, h');
      assert r.Sent(h') == s.Send(h, ms).Sent(h');
    }
  }

  lemma AllAbout(h: Handle, data: seq<byte>)
    ensures forall m :: m in Writes(h, Chunks(data)) ==> m.handle == h
  {
  }

  lemma RunningHasStream(s: Host, h: Handle)
    requires s.Handles() && s.Counts() && h in s.running
    ensures h in s.streams && h in s.began && h in s.accepted && 0 < s.outstanding
    ensures h in s.streams.Keys && h !in s.failed && h != NO_HANDLE
  {
    CountEnd(s.streams.Keys, s.outstanding, s.failed, s.errors, s.withoutHandle, h);
    hide CountsAgree;
  }

  lemma DataKeepsTables(s: Host, h: Handle, data: seq<byte>)
    requires s.Handles() && s.Counts() && h in s.streams && h in s.accepted && h != NO_HANDLE
    ensures s.Data(h, data).Handles() && s.Data(h, data).Counts()
  {
    hide CountsAgree, Writes, Chunks;
    assert s.Data(h, data).streams.Keys == s.streams.Keys;
    assert s.Data(h, data).accepted.Keys == s.accepted.Keys;
  }

  lemma DataKeepsEarlier(s: Host, h: Handle, data: seq<byte>)
    requires s.Earlier() && h in s.streams && h in s.began && h in s.accepted
    ensures s.Data(h, data).Earlier()
  {
    SendKeepsEarlier(s, h, Writes(h, Chunks(data)));
    hide EarlierStreams, Writes, Chunks, Host.Send;
  }

  lemma DoneKeepsEarlier(s: Host, h: Handle, removed: bool)
    requires s.Earlier() && h in s.streams && h in s.began && 0 < s.outstanding
    ensures s.Done(h, removed).Earlier()
  {
    SendKeepsEarlier(s, h, [DestroyStream(h)]);
    hide EarlierStreams, Host.Send;
  }

  lemma DataKeepsValid(s: Host, h: Handle, data: seq<byte>)
    requires s.Valid() && h in s.running && h in s.streams && h in s.accepted
    ensures s.Data(h, data).Valid()
  {
    hide Host.Handles, Host.Counts, Host.Streams, Host.Earlier, Host.Data;
    RunningHasStream(s, h);
    DataKeepsTables(s, h, data);
    DataKeepsStreams(s, h, data);
    DataKeepsEarlier(s, h, data);
  }

  lemma DoneKeepsStream(s: Host, h: Handle, removed: bool, h': Handle)
    requires s.Streams() && h in s.streams && h in s.began && 0 < s.outstanding && h' in s.began
    requires IsWholeStream(h, Opened(s, h) + [DestroyStream(h)])
    requires h in s.accepted && Payload(Opened(s, h) + [DestroyStream(h)]) == s.accepted[h]
    ensures var r := s.Done(h, removed); h' in r.began && h' in r.accepted && r.StreamValid(h')
  {
    var ms := [DestroyStream(h)];
    var r := s.Done(h, removed);
    assert s.StreamValid(h');
    SendEffect(s, h, ms, h');
    hide MessagesOf, Payload, IsOpenStream, IsWholeStream, Opened;
    assert r.Sent(h') == s.Send(h, ms).Sent(h');
  }

  lemma DoneKeepsStreams(s: Host, h: Handle, removed: bool)
    requires s.Streams() && h in s.streams && h in s.began && 0 < s.outstanding
    ensures s.Done(h, removed).Streams()
  {
    OpenedIsOpen(s, h);
    Closed(h, Opened(s, h));
    var r := s.Done(h, removed);
    assert r.began == s.began;
    hide Host.StreamValid, MessagesOf, Payload, IsOpenStream, IsWholeStream, Opened, Host.Done;
    forall h' | h' in r.began
      ensures h' in r.accepted && r.StreamValid(h')
    {
      DoneKeepsStream(s, h, removed, h');
    }
  }

  lemma DoneKeepsTables(s: Host, h: Handle, removed: bool)
    requires s.Handles() && s.Counts() && h in s.running && h in s.streams && 0 < s.outstanding
    ensures s.Done(h, removed).Handles() && s.Done(h, removed).Counts()
  {
    RunningHasStream(s, h);
    CountEnd(s.streams.Keys, s.outstanding, s.failed, s.errors, s.withoutHandle, h);
    hide CountsAgree;
    assert s.Done(h, removed).streams.Keys == s.streams.Keys - {h};
  }

  lemma DoneKeepsValid(s: Host, h: Handle, removed: bool)
    requires s.Valid() && h in s.running && h in s.streams && 0 < s.outstanding
    ensures s.Done(h, removed).Valid()
  {
    hide Host.Handles, Host.Counts, Host.Streams, Host.Earlier, Host.Done;
    RunningHasStream(s, h);
    DoneKeepsTables(s, h, removed);
    DoneKeepsStreams(s, h, removed);
    DoneKeepsEarlier(s, h, removed);
  }

  /** What curl reports when asked about its downloads. */
  datatype Report = Other | Finished(handle: Handle, removed: bool)

  /** What can happen next.  A request may lack memory, an option may be refused,
      curl may not take the handle; arriving data may fail to open its stream;
      curl may refuse to give a finished handle back. */
  datatype Step =
    | Request(handle: Handle, memory: bool, options: bool, added: bool)
    | Arrival(handle: Handle, data: seq<byte>, opens: bool)
    | Reports(reports: seq<Report>)

  /** curl reports the end of a download once, and only of downloads it was
      given. */
  ghost predicate CanReport(running: set<Handle>, reports: seq<Report>)
    decreases |reports|
  {
    reports == [] ||
    match reports[0]
    case Other => CanReport(running, reports[1..])
    case Finished(h, _) => h in running && CanReport(running - {h}, reports[1..])
  }

  ghost predicate Can(s: Host, step: Step) {
    match step
    case Request(h, memory, options, _) => CanGetUrl(s, h, memory, options)
    case Arrival(h, _, _) => h in s.running
    case Reports(reports) => CanReport(s.running, reports)
  }

  /** Data that arrives: it is refused if its stream cannot be opened. */
  ghost function Arrived(s: Host, h: Handle, data: seq<byte>, opens: bool): (r: Host)
    requires s.Valid() && h in s.running
    ensures r.Valid()
  {
    RunningHasStream(s, h);
    if s.streams[h] || opens then
      DataKeepsValid(s, h, data);
      s.Data(h, data)
    else
      s
  }

  /** Reports are read until curl refuses to give a handle back. */
  ghost function Reported(s: Host, reports: seq<Report>): (r: Host)
    requires s.Valid() && CanReport(s.running, reports)
    ensures r.Valid()
    decreases |reports|
  {
    if reports == [] then s
    else
      match reports[0]
      case Other => Reported(s, reports[1..])
      case Finished(h, removed) =>
        RunningHasStream(s, h);
        DoneKeepsValid(s, h, removed);
        var r := s.Done(h, removed);
        if removed then Reported(r, reports[1..]) else r
  }

  ghost function Next(s: Host, step: Step): (r: Host)
    requires s.Valid() && Can(s, step)
    ensures r.Valid()
  {
    match step
    case Request(h, memory, options, added) =>
      GetUrlKeepsValid(s, h, memory, options, added);
      s.GetUrl(h, memory, options, added)
    case Arrival(h, data, opens) => Arrived(s, h, data, opens)
    case Reports(reports) => Reported(s, reports)
  }

  /** Every step of the run is possible where it is taken. */
  ghost predicate IsRun(steps: seq<Step>)
    decreases |steps|, 0
  {
    steps == [] || (IsRun(steps[..|steps| - 1]) && Can(After(steps[..|steps| - 1]), steps[|steps| - 1]))
  }

  /** The state a run leads to. */
  ghost function After(steps: seq<Step>): (s: Host)
    requires IsRun(steps)
    ensures s.Valid()
    decreases |steps|, 1
  {
    if steps == [] then
      InitialValid();
      INITIAL
    else
      Next(After(steps[..|steps| - 1]), steps[|steps| - 1])
  }

  lemma RunExtends(steps: seq<Step>, step: Step)
    requires IsRun(steps) && Can(After(steps), step)
    ensures IsRun(steps + [step]) && After(steps + [step]) == Next(After(steps), step)
  {
    hide Can, Next, Host.Valid;
    var all := steps + [step];
    assert all[..|all| - 1] == steps;
  }

  lemma RunBegins(steps: seq<Step>, step: Step)
    requires IsRun(steps + [step])
    ensures IsRun(steps) && Can(After(steps), step) && After(steps + [step]) == Next(After(steps), step)
  {
    hide Can, Next, Host.Valid;
    var all := steps + [step];
    assert all[..|all| - 1] == steps;
  }

  /** After every run, what has been sent of a handle's latest stream begins a
      stream, and is a whole one when the handle has left the table; all the
      streams before were whole ones; and the data written are the data
      accepted. */
  lemma EveryRunSendsStreams(steps: seq<Step>, h: Handle)
    requires IsRun(steps) && h in After(steps).began
    ensures var s := After(steps);
      && h in s.accepted && s.began[h] <= |s.log|
      && IsStreamPrefix(h, s.Sent(h))
      && (h !in s.streams ==> IsWholeStream(h, s.Sent(h)))
      && (h in s.streams ==> (s.Sent(h) == [] <==> !s.streams[h]))
      && Payload(s.Sent(h)) == s.accepted[h]
      && MessagesOf(h, s.log) == MessagesOf(h, s.log[..s.began[h]]) + s.Sent(h)
      && AreWholeStreams(h, MessagesOf(h, s.log[..s.began[h]]))
  {
    hide MessagesOf, Payload, AreWholeStreams, IsWholeStream, IsOpenStream, After, IsRun;
    var s := After(steps);
    assert s.StreamValid(h);
    var k := s.began[h];
    MessagesJoin(h, s.log[..k], s.log[k..]);
    assert s.log == s.log[..k] + s.log[k..];
    NothingOpen(h);
  }

  lemma NothingOpen(h: Handle)
    ensures !IsOpenStream(h, [])
  {
  }

  /** After every run, the table has the downloads under way and the requests
      that failed after their stream was entered, except that requests without
      a handle share one place. */
  lemma EveryRunCountsStreams(steps: seq<Step>)
    requires IsRun(steps)
    ensures var s := After(steps);
      && |s.streams| == s.outstanding + |s.failed|
      && (|s.streams| == s.outstanding + s.errors <==> s.withoutHandle <= 1)
  {
    var s := After(steps);
    assert |s.streams.Keys| == |s.streams|;
  }

  /** A finished download always has its stream in the table, and is one of those
      under way. */
  lemma EveryRunFindsStream(steps: seq<Step>, h: Handle)
    requires IsRun(steps) && h in After(steps).running
    ensures h in After(steps).streams && 0 < After(steps).outstanding
  {
    RunningHasStream(After(steps), h);
  }

  /** Two requests without a handle: two errors, but one stream in the table. */
  lemma RequestsWithoutHandleSharePlace()
    ensures var steps := [Request(NO_HANDLE, true, false, false), Request(NO_HANDLE, true, false, false)];
      && IsRun(steps)
      && After(steps).outstanding == 0 && After(steps).errors == 2 && |After(steps).streams| == 1
  {
    var step := Request(NO_HANDLE, true, false, false);
    var none: seq<Step> := [];
    TwoWithoutHandle();
    hide *;
    RunStart();
    RunExtends(none, step);
    assert none + [step] == [step] && [step] + [step] == [step, step];
    RunExtends([step], step);
  }

  lemma TwoWithoutHandle()
    ensures var step := Request(NO_HANDLE, true, false, false);
      && INITIAL.Valid() && Can(INITIAL, step)
      && var s := Next(INITIAL, step);
      && Can(s, step)
      && var t := Next(s, step);
      && t.outstanding == 0 && t.errors == 2 && |t.streams| == 1
  {
    InitialValid();
    hide Host.Valid;
    var s := INITIAL.GetUrl(NO_HANDLE, true, false, false);
    assert s.streams == s.GetUrl(NO_HANDLE, true, false, false).streams == map[NO_HANDLE := false];
  }

  /** After a request the table has a single stream, which is when the idle callback
      is queued, exactly when nothing was under way and no failed request had left
      its stream there. */
  lemma SingleStreamExactly(s: Host, h: Handle, added: bool)
    requires s.Valid() && CanGetUrl(s, h, true, true)
    ensures |s.GetUrl(h, true, true, added).streams| == 1 <==> s.outstanding == 0 && s.failed == {}
  {
    GetUrlKeepsValid(s, h, true, true, added);
    GetUrlTables(s, h, true, true, added);
    var r := s.GetUrl(h, true, true, added);
    assert |r.streams.Keys| == |r.streams|;
    assert |s.failed| == 0 <==> s.failed == {};
  }

  /** A stream in the table that curl does not work on. */
  predicate Abandoned(s: Host, h: Handle) {
    h in s.streams && h !in s.running && h != NO_HANDLE
  }

  /** An abandoned stream whose request did not fail: curl has refused the handle. */
  predicate Refused(s: Host, h: Handle) {
    Abandoned(s, h) && h !in s.failed
  }

  /** An accepted request is counted as under way; its stream is abandoned exactly
      when curl has refused the handle. */
  lemma AddFailureAbandons(s: Host, h: Handle, added: bool)
    requires s.Valid() && CanGetUrl(s, h, true, true)
    ensures var r := s.GetUrl(h, true, true, added);
      && r.outstanding == s.outstanding + 1 && r.errors == s.errors
      && (Abandoned(r, h) <==> !added)
      && (Refused(r, h) <==> !added)
      && (h in r.running <==> added)
  {
    Unused(s, h);
    assert h !in s.running && h !in s.failed;
  }

  lemma {:induction false} ReportsKeepAbandoned(s: Host, reports: seq<Report>, h: Handle)
    requires s.Valid() && CanReport(s.running, reports) && Abandoned(s, h)
    ensures Abandoned(Reported(s, reports), h) && Reported(s, reports).failed == s.failed
    decreases |reports|
  {
    hide Host.Valid;
    if reports != [] {
      match reports[0]
      case Other => ReportsKeepAbandoned(s, reports[1..], h);
      case Finished(h', removed) =>
        RunningStream(s, h');
        DoneKeepsValid(s, h', removed);
        if removed {
          ReportsKeepAbandoned(s.Done(h', removed), reports[1..], h);
        }
    }
  }

  lemma RunningStream(s: Host, h: Handle)
    requires s.Valid() && h in s.running
    ensures h in s.streams && 0 < s.outstanding && h in s.accepted
  {
    RunningHasStream(s, h);
  }

  lemma StepKeepsAbandoned(s: Host, step: Step, h: Handle)
    requires s.Valid() && Can(s, step) && Abandoned(s, h)
    ensures Abandoned(Next(s, step), h)
    ensures Refused(s, h) ==> Refused(Next(s, step), h)
  {
    match step
    case Request(h', memory, options, added) =>
      RequestKeepsAbandoned(s, h', memory, options, added, h);
      hide Host.Valid, Host.GetUrl;
    case Arrival(h', data, opens) =>
      ArrivalKeepsAbandoned(s, h', data, opens, h);
      hide Host.Valid;
    case Reports(reports) =>
      ReportsKeepAbandoned(s, reports, h);
      hide Host.Valid, Reported;
  }

  lemma RequestKeepsAbandoned(s: Host, h': Handle, memory: bool, options: bool, added: bool, h: Handle)
    requires s.Valid() && CanGetUrl(s, h', memory, options) && Abandoned(s, h)
    ensures Abandoned(s.GetUrl(h', memory, options, added), h)
    ensures h !in s.failed ==> h !in s.GetUrl(h', memory, options, added).failed
  {
    assert h in s.streams.Keys && h in s.live;
    hide Host.Valid;
  }

  lemma ArrivalKeepsAbandoned(s: Host, h': Handle, data: seq<byte>, opens: bool, h: Handle)
    requires s.Valid() && h' in s.running && Abandoned(s, h)
    ensures Abandoned(Next(s, Arrival(h', data, opens)), h)
    ensures Next(s, Arrival(h', data, opens)).failed == s.failed
  {
    hide Host.Valid, Host.Data;
    RunningStream(s, h');
    DataKeepsAbandoned(s, h', data, h);
  }

  lemma DataKeepsAbandoned(s: Host, h': Handle, data: seq<byte>, h: Handle)
    requires h' in s.streams && h' in s.accepted && Abandoned(s, h)
    ensures Abandoned(s.Data(h', data), h) && s.Data(h', data).failed == s.failed
  {
    hide Writes, Chunks;
  }

  /** An abandoned stream stays in the table over every continuation, and a refused
      handle stays refused. */
  lemma {:induction false} AbandonedForEver(steps: seq<Step>, more: seq<Step>, h: Handle)
    requires IsRun(steps) && IsRun(steps + more) && Abandoned(After(steps), h)
    ensures Abandoned(After(steps + more), h)
    ensures Refused(After(steps), h) ==> Refused(After(steps + more), h)
    decreases |more|
  {
    hide *;
    if more == [] {
      assert steps + more == steps;
    } else {
      var init, last := more[..|more| - 1], more[|more| - 1];
      assert steps + more == (steps + init) + [last];
      RunBegins(steps + init, last);
      AbandonedForEver(steps, init, h);
      StepKeepsAbandoned(After(steps + init), last, h);
    }
  }

  /** Over every continuation of a run that has abandoned a stream, no request leaves
      the table with a single stream, so that none queues the idle callback. */
  lemma NoCallbackAfterAbandoning(steps: seq<Step>, more: seq<Step>, h: Handle, h': Handle, added: bool)
    requires IsRun(steps) && Abandoned(After(steps), h)
    requires IsRun(steps + more + [Request(h', true, true, added)])
    ensures |After(steps + more + [Request(h', true, true, added)]).streams| != 1
  {
    var step := Request(h', true, true, added);
    RunBegins(steps + more, step);
    AbandonedForEver(steps, more, h);
    TwoStreams(After(steps + more), h, h', added);
    hide *;
    assert After(steps + more + [step]) == Next(After(steps + more), step);
  }

  lemma TwoStreams(s: Host, h: Handle, h': Handle, added: bool)
    requires s.Valid() && Abandoned(s, h) && Can(s, Request(h', true, true, added))
    ensures |Next(s, Request(h', true, true, added)).streams| != 1
  {
    SingleStreamExactly(s, h', added);
    if h !in s.failed {
      CountEnd(s.streams.Keys, s.outstanding, s.failed, s.errors, s.withoutHandle, h);
    }
    hide Host.Valid, Host.GetUrl;
  }

  /** Something counts as under way exactly while curl works on a download or has
      refused a handle.  The count is what keeps the event source ready, so that
      every download curl works on is performed, callback or not; and once a handle
      has been refused the source is ready for ever. */
  lemma UnderWayExactly(s: Host)
    requires s.Valid()
    ensures 0 < s.outstanding <==> s.running != {} || exists h :: Refused(s, h)
  {
    var table := s.streams.Keys;
    if 0 < s.outstanding {
      if table <= s.failed {
        ProperSubset(table, s.failed);
      }
      var h :| h in table && h !in s.failed;
      assert h in s.running || Refused(s, h);
    }
    if h :| h in s.running {
      RunningHasStream(s, h);
    }
    if h :| Refused(s, h) {
      CountEnd(table, s.outstanding, s.failed, s.errors, s.withoutHandle, h);
    }
  }

  lemma RefusedKeepsSourceReady(steps: seq<Step>, more: seq<Step>, h: Handle)
    requires IsRun(steps) && IsRun(steps + more) && Refused(After(steps), h)
    ensures 0 < After(steps + more).outstanding
  {
    AbandonedForEver(steps, more, h);
    UnderWayExactly(After(steps + more));
  }

  /** One request whose handle curl refuses: it counts as under way without being
      worked on, and the next request does not find itself alone in the table. */
  lemma RefusedRequest()
    ensures var refused := [Request(1, true, true, false)];
      && IsRun(refused) && Refused(After(refused), 1)
      && After(refused).outstanding == 1 && After(refused).running == {} && After(refused).errors == 0
      && IsRun(refused + [Request(2, true, true, true)])
      && |After(refused + [Request(2, true, true, true)]).streams| == 2
  {
    var none: seq<Step> := [];
    var first, second := Request(1, true, true, false), Request(2, true, true, true);
    OneRefused();
    hide *;
    RunStart();
    RunExtends(none, first);
    assert none + [first] == [first];
    RunExtends([first], second);
  }

  lemma RunStart()
    ensures IsRun([]) && After([]) == INITIAL
  {
  }

  lemma OneRefused()
    ensures var first, second := Request(1, true, true, false), Request(2, true, true, true);
      && INITIAL.Valid() && Can(INITIAL, first)
      && var s := Next(INITIAL, first);
      && Refused(s, 1) && s.outstanding == 1 && s.running == {} && s.errors == 0
      && Can(s, second) && |Next(s, second).streams| == 2
  {
    InitialValid();
    hide Host.Valid;
    var s := INITIAL.GetUrl(1, true, true, false);
    assert s.streams == map[1 := false] && s.live == {1};
    assert s.GetUrl(2, true, true, true).streams == map[1 := false, 2 := false];
  }
}
