/** Properties of `perform_request` (usb/src/device/usb.rs), stated over the
    request function `Usb.Request` and the trace of bus events it leaves. */
module UsbProofs {
  import opened Wrappers
  import opened Ints
  import opened UsbFrame
  import opened UsbTransport
  import opened Usb
  import opened Seqs

  // ---- Counting events in a trace ------------------------------------------

  /** Number of control writes (frames sent) in a trace. */
  function Writes(t: seq<Event>): nat
  {
    if t == [] then 0 else (if t[0].ControlOut? then 1 else 0) + Writes(t[1..])
  }

  /** Number of control reads (polls) in a trace. */
  function Reads(t: seq<Event>): nat
  {
    if t == [] then 0 else (if t[0].ControlIn? then 1 else 0) + Reads(t[1..])
  }

  lemma {:induction false} CountsAppend(t: seq<Event>, u: seq<Event>)
    ensures Writes(t + u) == Writes(t) + Writes(u)
    ensures Reads(t + u) == Reads(t) + Reads(u)
    decreases |t|
  {
    if t == [] {
      assert t + u == u;
    } else {
      assert (t + u)[1..] == t[1..] + u;
      CountsAppend(t[1..], u);
    }
  }

  /** The data of the last frame written, if any. */
  function LastOut(t: seq<Event>): Option<seq<byte>>
  {
    if t == [] then None
    else if t[|t| - 1].ControlOut? then Some(t[|t| - 1].data)
    else LastOut(t[..|t| - 1])
  }

  /** Events that write nothing leave the last frame written as it was. */
  lemma {:induction false} LastOutSkipsReads(t: seq<Event>, u: seq<Event>)
    requires Writes(u) == 0
    ensures LastOut(t + u) == LastOut(t)
    decreases |u|
  {
    if u == [] {
      assert t + u == t;
    } else {
      var front := u[..|u| - 1];
      assert u == front + [u[|u| - 1]];
      CountsAppend(front, [u[|u| - 1]]);
      assert (t + u)[..|t + u| - 1] == t + front;
      LastOutSkipsReads(t, front);
    }
  }

  /** Three traces, each extending the one before: the new part of the last
      splits at the middle one. */
  lemma Suffixes(a: seq<Event>, b: seq<Event>, c: seq<Event>)
    requires a <= b && b <= c
    ensures c[|a|..] == b[|a|..] + c[|b|..]
  {
  }

  // ---- The poll loop -------------------------------------------------------

  /** `n` rounds of "read, not ready; sleep". */
  function NotReadyRounds(n: nat, ms: nat): (t: seq<Event>)
    ensures |t| == 2 * n
  {
    if n == 0 then []
    else [ControlIn(REQUEST_RESPONSE, 0, 0, RESPONSE_LEN, Err(Pipe)), Slept(ms)] + NotReadyRounds(n - 1, ms)
  }

  /** What a read reports once the buffer of `RESPONSE_LEN` bytes truncates it. */
  function Received(raw: ReadResult): ReadResult
  {
    if raw.Ok? && |raw.value| > RESPONSE_LEN then Ok(raw.value[..RESPONSE_LEN]) else raw
  }

  /** One attempt of the poll loop: a read of the response, then what it read decides. */
  lemma PollStep(l: Link, i: nat, ms: nat)
    requires i < POLL_ATTEMPTS
    ensures var (l1, rv) := ReadStep(l, REQUEST_RESPONSE, 0, 0, RESPONSE_LEN);
      && l1.trace == l.trace + [ControlIn(REQUEST_RESPONSE, 0, 0, RESPONSE_LEN, rv)]
      && l1.writeScript == l.writeScript
      && Poll(l, i, ms) == AfterRead(l1, rv, i, ms)
  {
  }

  /** The poll loop only reads and sleeps, at most once per remaining
      attempt, and leaves the write script alone. */
  lemma {:induction false} PollGrowth(l: Link, i: nat, ms: nat)
    requires i <= POLL_ATTEMPTS
    ensures var l2 := Poll(l, i, ms).0;
      && l.trace <= l2.trace
      && Writes(l2.trace[|l.trace|..]) == 0
      && Reads(l2.trace[|l.trace|..]) <= POLL_ATTEMPTS - i
      && l2.writeScript == l.writeScript
    decreases POLL_ATTEMPTS - i
  {
    if i < POLL_ATTEMPTS {
      var (l1, rv) := ReadStep(l, REQUEST_RESPONSE, 0, 0, RESPONSE_LEN);
      var event := ControlIn(REQUEST_RESPONSE, 0, 0, RESPONSE_LEN, rv);
      PollStep(l, i, ms);
      if rv == Err(Pipe) {
        var ls := SleepStep(l1, ms);
        PollGrowth(ls, i + 1, ms);
        var l2 := Poll(ls, i + 1, ms).0;
        assert ls.trace == l.trace + [event, Slept(ms)];
        Suffixes(l.trace, ls.trace, l2.trace);
        assert ls.trace[|l.trace|..] == [event, Slept(ms)];
        CountsAppend([event, Slept(ms)], l2.trace[|ls.trace|..]);
        assert [event, Slept(ms)][1..] == [Slept(ms)];
      } else {
        assert l1.trace[|l.trace|..] == [event];
      }
    } else {
      assert l.trace[|l.trace|..] == [];
    }
  }

  /** A loop that runs out leaves exactly 20 - i not-ready rounds. */
  lemma {:induction false} PollExhaustedTrace(l: Link, i: nat, ms: nat)
    requires i <= POLL_ATTEMPTS
    requires Poll(l, i, ms).1.Exhausted?
    ensures Poll(l, i, ms).0.trace == l.trace + NotReadyRounds(POLL_ATTEMPTS - i, ms)
    decreases POLL_ATTEMPTS - i
  {
    if i < POLL_ATTEMPTS {
      var (l1, rv) := ReadStep(l, REQUEST_RESPONSE, 0, 0, RESPONSE_LEN);
      assert Poll(l, i, ms) == AfterRead(l1, rv, i, ms);
      var event := ControlIn(REQUEST_RESPONSE, 0, 0, RESPONSE_LEN, rv);
      assert rv == Err(Pipe);
      var ls := SleepStep(l1, ms);
      PollExhaustedTrace(ls, i + 1, ms);
      assert ls.trace == l.trace + [event, Slept(ms)];
      assert NotReadyRounds(POLL_ATTEMPTS - i, ms) == [event, Slept(ms)] + NotReadyRounds(POLL_ATTEMPTS - (i + 1), ms);
    }
  }

  /** A loop that ends early ends on its last read: the failing read, or
      the reply itself. */
  lemma {:induction false} PollLastRead(l: Link, i: nat, ms: nat)
    requires i <= POLL_ATTEMPTS
    requires !Poll(l, i, ms).1.Exhausted?
    ensures var (l2, polled) := Poll(l, i, ms);
      && |l2.trace| > |l.trace|
      && (polled.Fatal? ==> Failed(l2.trace[|l2.trace| - 1], polled.error))
      && (polled.Reply? ==>
            l2.trace[|l2.trace| - 1] == ControlIn(REQUEST_RESPONSE, 0, 0, RESPONSE_LEN, Ok(polled.header + polled.body)))
    decreases POLL_ATTEMPTS - i
  {
    var (l1, rv) := ReadStep(l, REQUEST_RESPONSE, 0, 0, RESPONSE_LEN);
    PollStep(l, i, ms);
    if rv == Err(Pipe) {
      var ls := SleepStep(l1, ms);
      PollLastRead(ls, i + 1, ms);
    } else if rv.Ok? && |rv.value| >= HEADER_LEN {
      assert rv.value[..HEADER_LEN] + rv.value[HEADER_LEN..] == rv.value;
    }
  }

  /** A poll-loop read that ends the request with error `e`: a read error
      other than not-ready, or a reply too short to hold a header. */
  predicate Failed(event: Event, e: UsbError)
  {
    && event.ControlIn?
    && ((event.read.Err? && event.read.error == e && e != Pipe)
        || (event.read.Ok? && |event.read.value| < HEADER_LEN && e == Pipe))
  }

  /** The script decides how the loop ends: it is exhausted exactly when
      every one of the remaining attempts reads not-ready (a script that
      runs out reads not-ready for ever). */
  lemma {:induction false} PollExhaustedIff(l: Link, i: nat, ms: nat)
    ensures Poll(l, i, ms).1.Exhausted? <==>
      forall k | 0 <= k < POLL_ATTEMPTS - i && k < |l.readScript| :: l.readScript[k] == Err(Pipe)
    decreases POLL_ATTEMPTS - i
  {
    if i < POLL_ATTEMPTS {
      var (l1, rv) := ReadStep(l, REQUEST_RESPONSE, 0, 0, RESPONSE_LEN);
      if |l.readScript| > 0 {
        assert rv == Err(Pipe) <==> l.readScript[0] == Err(Pipe);
        if rv == Err(Pipe) {
          var ls := SleepStep(l1, ms);
          PollExhaustedIff(ls, i + 1, ms);
          assert ls.readScript == l.readScript[1..];
          forall k | 0 < k < POLL_ATTEMPTS - i && k < |l.readScript|
            ensures (l.readScript[k] == Err(Pipe)) == (ls.readScript[k - 1] == Err(Pipe))
          {
          }
        }
      } else {
        PollExhaustedIff(SleepStep(l1, ms), i + 1, ms);
      }
    }
  }

  /** The first read that is not a not-ready decides the loop, as long as
      it falls within the 20 attempts. */
  lemma {:induction false} PollFirstReady(l: Link, i: nat, ms: nat, k: nat)
    requires i + k < POLL_ATTEMPTS && k < |l.readScript|
    requires forall j | 0 <= j < k :: l.readScript[j] == Err(Pipe)
    requires l.readScript[k] != Err(Pipe)
    ensures var rv := Received(l.readScript[k]);
      Poll(l, i, ms).1 ==
        if rv.Err? then Fatal(rv.error)
        else if |rv.value| < HEADER_LEN then Fatal(Pipe)
        else Reply(rv.value[..HEADER_LEN], rv.value[HEADER_LEN..])
    decreases k
  {
    var (l1, rv) := ReadStep(l, REQUEST_RESPONSE, 0, 0, RESPONSE_LEN);
    if k > 0 {
      var ls := SleepStep(l1, ms);
      assert ls.readScript == l.readScript[1..];
      PollFirstReady(ls, i + 1, ms, k - 1);
    }
  }

  /** The boundary attempt: nineteen not-ready reads and then a full reply
      on the twentieth still deliver that reply. */
  lemma LastAttemptDelivers(l: Link, ms: nat, reply: seq<byte>)
    requires |l.readScript| >= POLL_ATTEMPTS
    requires forall j | 0 <= j < POLL_ATTEMPTS - 1 :: l.readScript[j] == Err(Pipe)
    requires l.readScript[POLL_ATTEMPTS - 1] == Ok(reply)
    requires HEADER_LEN <= |reply| <= RESPONSE_LEN
    ensures Poll(l, 0, ms).1 == Reply(reply[..HEADER_LEN], reply[HEADER_LEN..])
  {
    PollFirstReady(l, 0, ms, POLL_ATTEMPTS - 1);
  }

  // ---- Bounded recursion ---------------------------------------------------

  /** Most frames one `perform_request` call can send: one exchange with
      `retry` set, three without (the exchange, then the resync's reset and
      the re-send), and three more when a command other than the reset finds
      the counter at u16::MAX and first issues a reset without `retry`. */
  function WriteBound(c: Command, retry: bool, wrap: bool): nat
  {
    (if c.Hardware? && wrap then 3 else 0) + (if retry then 1 else 3)
  }

  /** `b` extends `a` by at most `w` frames, with at most 20 polls per frame. */
  predicate Grew(a: seq<Event>, b: seq<Event>, w: nat)
  {
    a <= b && Writes(b[|a|..]) <= w && Reads(b[|a|..]) <= POLL_ATTEMPTS * Writes(b[|a|..])
  }

  lemma GrowthCompose(a: seq<Event>, b: seq<Event>, c: seq<Event>, w1: nat, w2: nat)
    requires Grew(a, b, w1) && Grew(b, c, w2)
    ensures Grew(a, c, w1 + w2)
  {
    Suffixes(a, b, c);
    CountsAppend(b[|a|..], c[|b|..]);
  }

  /** A request only appends to the trace: at most `WriteBound` frames, and
      at most 20 polls per frame. */
  lemma {:induction false} RequestGrowth(s: Session, c: Command, body: seq<byte>, retry: bool)
    ensures Grew(s.link.trace, Request(s, c, body, retry).session.link.trace, WriteBound(c, retry, s.count == U16_MAX))
    decreases Rank(c, retry), 4
  {
    if c.ResetCommandIndex? {
      assert Request(s, c, body, retry) == Exchange(s.(count := 0), c, body, retry);
      ExchangeGrowth(s.(count := 0), c, body, retry);
    } else if s.count == U16_MAX {
      WrapGrowth(s, c.id, body, retry);
    } else {
      assert Request(s, c, body, retry) == Exchange(s.(count := s.count + 1), c, body, retry);
      ExchangeGrowth(s.(count := s.count + 1), c, body, retry);
    }
  }

  /** At u16::MAX: the reset's three frames at most, then the command's exchange. */
  lemma {:induction false} WrapGrowth(s: Session, id: u32, body: seq<byte>, retry: bool)
    requires s.count == U16_MAX
    ensures Grew(s.link.trace, Request(s, Hardware(id), body, retry).session.link.trace, 3 + if retry then 1 else 3)
    decreases Rank(Hardware(id), retry), 3
  {
    var reset := Request(s, ResetCommandIndex, [], false);
    RequestAtMax(s, id, body, retry);
    RequestGrowth(s, ResetCommandIndex, [], false);
    if reset.result.Ok? {
      var next := reset.session.(count := reset.session.count + 1);
      ExchangeGrowth(next, Hardware(id), body, retry);
      GrowthCompose(s.link.trace, reset.session.link.trace, Exchange(next, Hardware(id), body, retry).session.link.trace,
        3, if retry then 1 else 3);
    }
  }

  /** One exchange: its own frame, then up to two more from a resync. */
  lemma {:induction false} ExchangeGrowth(s: Session, c: Command, body: seq<byte>, retry: bool)
    ensures Grew(s.link.trace, Exchange(s, c, body, retry).session.link.trace, if retry then 1 else 3)
    decreases Rank(c, retry), 2
  {
    var frame := Frame(CommandId(c), s.count, body);
    var (l1, written) := WriteStep(s.link, REQUEST_COMMAND, 0, 0, frame);
    var out := ControlOut(REQUEST_COMMAND, 0, 0, frame, written);
    assert l1.trace == s.link.trace + [out];
    assert Writes([out]) == 1 && Reads([out]) == 0;
    if written.Err? {
      assert l1.trace[|s.link.trace|..] == [out];
    } else {
      var ms := SleepTime(s.productId);
      var ls := SleepStep(l1, ms);
      var (l2, polled) := Poll(ls, 0, ms);
      PollGrowth(ls, 0, ms);
      assert ls.trace == s.link.trace + [out, Slept(ms)];
      assert ls.trace[|s.link.trace|..] == [out, Slept(ms)];
      assert [out, Slept(ms)][1..] == [Slept(ms)];
      Suffixes(s.link.trace, ls.trace, l2.trace);
      CountsAppend([out, Slept(ms)], l2.trace[|ls.trace|..]);
      assert Grew(s.link.trace, l2.trace, 1);
      var s2 := s.(link := l2);
      AnswerGrowth(s2, c, body, retry, polled);
      GrowthCompose(s.link.trace, l2.trace, Answer(s2, c, body, retry, polled).session.link.trace,
        1, if retry then 0 else 2);
    }
  }

  /** Acting on the poll sends nothing, except the resync's two frames. */
  lemma {:induction false} AnswerGrowth(s: Session, c: Command, body: seq<byte>, retry: bool, polled: Polled)
    requires polled.Reply? ==> |polled.header| == HEADER_LEN
    ensures Grew(s.link.trace, Answer(s, c, body, retry, polled).session.link.trace, if retry then 0 else 2)
    decreases Rank(c, retry), 1
  {
    if polled.Reply? && HeaderIndex(polled.header) != s.count && !retry {
      ResyncGrowth(s, c, body);
    } else {
      assert s.link.trace[|s.link.trace|..] == [];
    }
  }

  /** The resync: a reset and the re-sent command, one frame each. */
  lemma {:induction false} ResyncGrowth(s: Session, c: Command, body: seq<byte>)
    ensures Grew(s.link.trace, Resync(s, c, body).session.link.trace, 2)
    decreases Rank(c, false), 0
  {
    var reset := Request(s, ResetCommandIndex, [], true);
    RequestGrowth(s, ResetCommandIndex, [], true);
    if reset.result.Ok? {
      RequestGrowth(reset.session, c, body, true);
      GrowthCompose(s.link.trace, reset.session.link.trace, Request(reset.session, c, body, true).session.link.trace, 1, 1);
    }
  }

  // ---- The counter after a request -----------------------------------------

  /** `b` extends `a` by exactly `n` frames. */
  predicate Wrote(a: seq<Event>, b: seq<Event>, n: nat)
  {
    a <= b && Writes(b[|a|..]) == n
  }

  lemma WroteCompose(a: seq<Event>, b: seq<Event>, c: seq<Event>, n1: nat, n2: nat)
    requires Wrote(a, b, n1) && Wrote(b, c, n2)
    ensures Wrote(a, c, n1 + n2)
  {
    Suffixes(a, b, c);
    CountsAppend(b[|a|..], c[|b|..]);
  }

  /** Writing a frame, sleeping and polling sends exactly that one frame. */
  lemma FrameThenPoll(l: Link, frame: seq<byte>, ms: nat)
    ensures var l1 := WriteStep(l, REQUEST_COMMAND, 0, 0, frame).0;
      Wrote(l.trace, Poll(SleepStep(l1, ms), 0, ms).0.trace, 1)
  {
    var (l1, written) := WriteStep(l, REQUEST_COMMAND, 0, 0, frame);
    var out := ControlOut(REQUEST_COMMAND, 0, 0, frame, written);
    var ls := SleepStep(l1, ms);
    var l2 := Poll(ls, 0, ms).0;
    PollGrowth(ls, 0, ms);
    assert ls.trace == l.trace + [out, Slept(ms)];
    assert ls.trace[|l.trace|..] == [out, Slept(ms)];
    assert [out, Slept(ms)][1..] == [Slept(ms)];
    Suffixes(l.trace, ls.trace, l2.trace);
    CountsAppend([out, Slept(ms)], l2.trace[|ls.trace|..]);
  }

  /** The counter a resync leaves: 0 after resending a reset, 1 after
      resending any other command (the reset zeroes it, the command
      increments it). */
  function ResyncedCount(c: Command): u16
  {
    if c.ResetCommandIndex? then 0 else 1
  }

  /** A successful exchange either sent just its own frame and keeps the
      index it sent, or resynced: three frames (its own, the reset, the
      command again), leaving the counter at `ResyncedCount(c)`. A retry
      never resyncs. */
  lemma {:induction false} ExchangeCounter(s: Session, c: Command, body: seq<byte>, retry: bool)
    ensures var o := Exchange(s, c, body, retry);
      o.result.Ok? ==>
        || (o.session.count == s.count && Wrote(s.link.trace, o.session.link.trace, 1))
        || (!retry && o.session.count == ResyncedCount(c) && Wrote(s.link.trace, o.session.link.trace, 3))
    decreases Rank(c, retry), 2
  {
    var frame := Frame(CommandId(c), s.count, body);
    var (l1, written) := WriteStep(s.link, REQUEST_COMMAND, 0, 0, frame);
    if written.Ok? {
      var ms := SleepTime(s.productId);
      var (l2, polled) := Poll(SleepStep(l1, ms), 0, ms);
      FrameThenPoll(s.link, frame, ms);
      var s2 := s.(link := l2);
      assert Exchange(s, c, body, retry) == Answer(s2, c, body, retry, polled);
      if polled.Reply? && HeaderIndex(polled.header) != s.count && !retry {
        ResyncCounter(s2, c, body);
        var o := Resync(s2, c, body);
        if o.result.Ok? {
          WroteCompose(s.link.trace, l2.trace, o.session.link.trace, 1, 2);
        }
      }
    }
  }

  /** A successful resync sends two frames, the reset and the command, and
      leaves the counter at `ResyncedCount(c)`. */
  lemma {:induction false} ResyncCounter(s: Session, c: Command, body: seq<byte>)
    ensures var o := Resync(s, c, body);
      o.result.Ok? ==> o.session.count == ResyncedCount(c) && Wrote(s.link.trace, o.session.link.trace, 2)
    decreases Rank(c, false), 0
  {
    var reset := Request(s, ResetCommandIndex, [], true);
    assert reset == Exchange(s.(count := 0), ResetCommandIndex, [], true);
    ExchangeCounter(s.(count := 0), ResetCommandIndex, [], true);
    if reset.result.Ok? {
      var rs := reset.session;
      assert rs.count == 0;
      var next := rs.(count := ResyncedCount(c));
      AfterReset(rs, c, body);
      ExchangeCounter(next, c, body, true);
      var o := Request(rs, c, body, true);
      assert Resync(s, c, body) == o;
      if o.result.Ok? {
        WroteCompose(s.link.trace, rs.link.trace, o.session.link.trace, 1, 1);
      }
    }
  }

  /** Right after a reset the counter is 0, so the next request sends
      index `ResyncedCount(c)`. */
  lemma AfterReset(s: Session, c: Command, body: seq<byte>)
    requires s.count == 0
    ensures Request(s, c, body, true) == Exchange(s.(count := ResyncedCount(c)), c, body, true)
  {
  }

  /** The counter after a successful command below `u16::MAX`: one more
      than before when only the command's own frame went out, or 1 after a
      resync (three frames). */
  lemma RequestCounter(s: Session, id: u32, body: seq<byte>, retry: bool)
    requires s.count < U16_MAX
    ensures var o := Request(s, Hardware(id), body, retry);
      o.result.Ok? ==>
        || (o.session.count == s.count + 1 && Wrote(s.link.trace, o.session.link.trace, 1))
        || (!retry && o.session.count == 1 && Wrote(s.link.trace, o.session.link.trace, 3))
  {
    var next := s.(count := s.count + 1);
    assert Request(s, Hardware(id), body, retry) == Exchange(next, Hardware(id), body, retry);
    ExchangeCounter(next, Hardware(id), body, retry);
  }

  /** At `u16::MAX` the reset goes out first, so a successful command
      leaves the counter at 1 whatever else happened. */
  lemma WrapCounter(s: Session, id: u32, body: seq<byte>, retry: bool)
    requires s.count == U16_MAX
    ensures var o := Request(s, Hardware(id), body, retry);
      o.result.Ok? ==> o.session.count == 1
  {
    RequestAtMax(s, id, body, retry);
    var reset := Request(s, ResetCommandIndex, [], false);
    if reset.result.Ok? {
      var next := reset.session.(count := reset.session.count + 1);
      assert next.count == 1;
      ExchangeCounter(next, Hardware(id), body, retry);
    }
  }

  /** Two commands in a row: when the first succeeds with just its own frame,
      the second goes out with the next index, so successive commands carry
      successive indices. */
  lemma SuccessiveIndices(s: Session, id1: u32, body1: seq<byte>, retry1: bool, id2: u32, body2: seq<byte>, retry2: bool)
    requires s.count + 1 < U16_MAX
    requires var o1 := Request(s, Hardware(id1), body1, retry1);
      o1.result.Ok? && Wrote(s.link.trace, o1.session.link.trace, 1)
    ensures var o1 := Request(s, Hardware(id1), body1, retry1);
      var o2 := Request(o1.session, Hardware(id2), body2, retry2);
      && |o1.session.link.trace| > |s.link.trace|
      && o1.session.link.trace[|s.link.trace|]
         == ControlOut(REQUEST_COMMAND, 0, 0, Frame(id1, s.count + 1, body1), FirstWrite(s.link))
      && |o2.session.link.trace| > |o1.session.link.trace|
      && o2.session.link.trace[|o1.session.link.trace|]
         == ControlOut(REQUEST_COMMAND, 0, 0, Frame(id2, s.count + 2, body2), FirstWrite(o1.session.link))
  {
    var o1 := Request(s, Hardware(id1), body1, retry1);
    RequestCounter(s, id1, body1, retry1);
    assert o1.session.count == s.count + 1;
    CommandAdvancesCounter(s, id1, body1, retry1);
    CommandAdvancesCounter(o1.session, id2, body2, retry2);
  }

  // ---- What a result means -------------------------------------------------

  /** The last event is a reply whose header echoes `index` and whose bytes
      after the header are `b`. */
  predicate MatchingReply(event: Event, index: u16, b: seq<byte>)
  {
    && event.ControlIn? && event.read.Ok?
    && |event.read.value| >= HEADER_LEN
    && HeaderIndex(event.read.value[..HEADER_LEN]) == index
    && b == event.read.value[HEADER_LEN..]
  }

  /** The trace ends with the 20 not-ready rounds of an exhausted poll. */
  predicate EndsNotReady(t: seq<Event>, ms: nat)
  {
    |t| >= 2 * POLL_ATTEMPTS && t[|t| - 2 * POLL_ATTEMPTS..] == NotReadyRounds(POLL_ATTEMPTS, ms)
  }

  /** The bus event that ended a failed request with error `e`, `index`
      being the index it had sent: a failed write, a failing read, or (on
      the retry) a reply whose header carries another index. */
  predicate Stopped(event: Event, e: UsbError, index: u16)
  {
    || (event.ControlOut? && event.written == Err(e))
    || Failed(event, e)
    || (&& event.ControlIn? && event.read.Ok?
        && |event.read.value| >= HEADER_LEN
        && HeaderIndex(event.read.value[..HEADER_LEN]) != index
        && e == Other)
  }

  /** What an outcome of `perform_request(c, body, _)` tells about the bus.
      `Ok(b)`: the last frame sent is `c` with `body` under the final
      counter value, and `b` is either the body of the reply that echoed
      that index, or empty after 20 not-ready polls. `Err(e)`: the request
      stopped at the bus event that failed with `e`. */
  predicate Correlated(o: Outcome, c: Command, body: seq<byte>)
  {
    var t := o.session.link.trace;
    match o.result
    case Ok(b) =>
      && LastOut(t) == Some(Frame(CommandId(c), o.session.count, body))
      && ((|t| > 0 && MatchingReply(t[|t| - 1], o.session.count, b))
          || (b == [] && EndsNotReady(t, SleepTime(o.session.productId))))
    case Err(e) => |t| > 0 && Stopped(t[|t| - 1], e, o.session.count)
  }

  /** Success only on a matching index (or an exhausted poll), and every
      error is the error of the last bus event: nothing runs after it. */
  lemma {:induction false} RequestCorrelated(s: Session, c: Command, body: seq<byte>, retry: bool)
    ensures Correlated(Request(s, c, body, retry), c, body)
    ensures c.Hardware? && Request(s, c, body, retry).result.Ok? ==> Request(s, c, body, retry).session.count != 0
    decreases Rank(c, retry), 3
  {
    if c.ResetCommandIndex? {
      ExchangeCorrelated(s.(count := 0), c, body, retry);
    } else if s.count == U16_MAX {
      var reset := Request(s, ResetCommandIndex, [], false);
      RequestCorrelated(s, ResetCommandIndex, [], false);
      if reset.result.Ok? {
        ExchangeCorrelated(reset.session.(count := reset.session.count + 1), c, body, retry);
      }
    } else {
      ExchangeCorrelated(s.(count := s.count + 1), c, body, retry);
    }
  }

  lemma {:induction false} ExchangeCorrelated(s: Session, c: Command, body: seq<byte>, retry: bool)
    ensures Correlated(Exchange(s, c, body, retry), c, body)
    ensures var o := Exchange(s, c, body, retry);
      c.Hardware? && s.count != 0 && o.result.Ok? ==> o.session.count != 0
    decreases Rank(c, retry), 2
  {
    var frame := Frame(CommandId(c), s.count, body);
    var (l1, written) := WriteStep(s.link, REQUEST_COMMAND, 0, 0, frame);
    if written.Ok? {
      var ms := SleepTime(s.productId);
      assert LastOut(l1.trace) == Some(frame);
      PollAfterFrame(l1, frame, ms);
      var (l2, polled) := Poll(SleepStep(l1, ms), 0, ms);
      AnswerCorrelated(s.(link := l2), c, body, retry, polled);
    }
  }

  /** The settle sleep and the poll loop write nothing, so the frame just
      sent stays the last one. */
  lemma SleepPollKeepsFrame(l1: Link, frame: seq<byte>, ms: nat)
    requires LastOut(l1.trace) == Some(frame)
    ensures LastOut(Poll(SleepStep(l1, ms), 0, ms).0.trace) == Some(frame)
  {
    var ls := SleepStep(l1, ms);
    var l2 := Poll(ls, 0, ms).0;
    PollGrowth(ls, 0, ms);
    assert ls.trace == l1.trace + [Slept(ms)];
    Suffixes(l1.trace, ls.trace, l2.trace);
    assert ls.trace[|l1.trace|..] == [Slept(ms)];
    CountsAppend([Slept(ms)], l2.trace[|ls.trace|..]);
    assert l2.trace == l1.trace + l2.trace[|l1.trace|..];
    LastOutSkipsReads(l1.trace, l2.trace[|l1.trace|..]);
  }

  /** The settle sleep and the poll loop keep the frame just sent as the
      last one, and leave how the loop ended at the end of the trace. */
  lemma PollAfterFrame(l1: Link, frame: seq<byte>, ms: nat)
    requires LastOut(l1.trace) == Some(frame)
    ensures var (l2, polled) := Poll(SleepStep(l1, ms), 0, ms);
      && LastOut(l2.trace) == Some(frame)
      && (polled.Exhausted? ==> EndsNotReady(l2.trace, ms))
      && (polled.Fatal? ==> |l2.trace| > 0 && Failed(l2.trace[|l2.trace| - 1], polled.error))
      && (polled.Reply? ==>
            && |l2.trace| > 0
            && l2.trace[|l2.trace| - 1] == ControlIn(REQUEST_RESPONSE, 0, 0, RESPONSE_LEN, Ok(polled.header + polled.body)))
  {
    var ls := SleepStep(l1, ms);
    var (l2, polled) := Poll(ls, 0, ms);
    SleepPollKeepsFrame(l1, frame, ms);
    if polled.Exhausted? {
      PollExhaustedTrace(ls, 0, ms);
      SuffixOfConcat(ls.trace, NotReadyRounds(POLL_ATTEMPTS, ms));
    } else {
      PollLastRead(ls, 0, ms);
    }
  }

  lemma {:induction false} AnswerCorrelated(s: Session, c: Command, body: seq<byte>, retry: bool, polled: Polled)
    requires polled.Reply? ==> |polled.header| == HEADER_LEN
    requires LastOut(s.link.trace) == Some(Frame(CommandId(c), s.count, body))
    requires polled.Exhausted? ==> EndsNotReady(s.link.trace, SleepTime(s.productId))
    requires polled.Fatal? ==> |s.link.trace| > 0 && Failed(s.link.trace[|s.link.trace| - 1], polled.error)
    requires polled.Reply? ==>
      && |s.link.trace| > 0
      && s.link.trace[|s.link.trace| - 1] == ControlIn(REQUEST_RESPONSE, 0, 0, RESPONSE_LEN, Ok(polled.header + polled.body))
    ensures Correlated(Answer(s, c, body, retry, polled), c, body)
    ensures var o := Answer(s, c, body, retry, polled);
      c.Hardware? && s.count != 0 && o.result.Ok? ==> o.session.count != 0
    decreases Rank(c, retry), 1
  {
    if polled.Reply? {
      var v := polled.header + polled.body;
      assert v[..HEADER_LEN] == polled.header && v[HEADER_LEN..] == polled.body;
      if HeaderIndex(polled.header) != s.count && !retry {
        ResyncCorrelated(s, c, body);
      }
    }
  }

  lemma {:induction false} ResyncCorrelated(s: Session, c: Command, body: seq<byte>)
    ensures Correlated(Resync(s, c, body), c, body)
    ensures c.Hardware? && Resync(s, c, body).result.Ok? ==> Resync(s, c, body).session.count != 0
    decreases Rank(c, false), 0
  {
    var reset := Request(s, ResetCommandIndex, [], true);
    RequestCorrelated(s, ResetCommandIndex, [], true);
    if reset.result.Ok? {
      RequestCorrelated(reset.session, c, body, true);
    }
  }

  // ---- The command counter -------------------------------------------------

  /** The outcome the device gives the next control write. */
  function FirstWrite(l: Link): WriteResult
  {
    if |l.writeScript| == 0 then Ok(()) else l.writeScript[0]
  }

  /** An exchange opens with the write of its frame, under the session's
      current counter value. */
  lemma ExchangeSendsFirst(s: Session, c: Command, body: seq<byte>, retry: bool)
    ensures var t := Exchange(s, c, body, retry).session.link.trace;
      && |t| > |s.link.trace|
      && t[|s.link.trace|] == ControlOut(REQUEST_COMMAND, 0, 0, Frame(CommandId(c), s.count, body), FirstWrite(s.link))
  {
    var frame := Frame(CommandId(c), s.count, body);
    var (l1, written) := WriteStep(s.link, REQUEST_COMMAND, 0, 0, frame);
    assert l1.trace == s.link.trace + [ControlOut(REQUEST_COMMAND, 0, 0, frame, written)];
    if written.Ok? {
      var ms := SleepStep(l1, SleepTime(s.productId));
      PollGrowth(ms, 0, SleepTime(s.productId));
      var (l2, polled) := Poll(ms, 0, SleepTime(s.productId));
      AnswerGrowth(s.(link := l2), c, body, retry, polled);
    }
  }

  /** A `ResetCommandIndex` request zeroes the counter and is sent with
      index 0. */
  lemma ResetSendsIndexZero(s: Session, body: seq<byte>, retry: bool)
    ensures var o := Request(s, ResetCommandIndex, body, retry);
      && o.session.count == 0
      && |o.session.link.trace| > |s.link.trace|
      && o.session.link.trace[|s.link.trace|]
         == ControlOut(REQUEST_COMMAND, 0, 0, Frame(RESET_COMMAND_ID, 0, body), FirstWrite(s.link))
  {
    ExchangeSendsFirst(s.(count := 0), ResetCommandIndex, body, retry);
  }

  /** Below u16::MAX, any other command increments the counter first and is
      sent with the new value, which therefore lies in 1..65535. */
  lemma CommandAdvancesCounter(s: Session, id: u32, body: seq<byte>, retry: bool)
    requires s.count < U16_MAX
    ensures var o := Request(s, Hardware(id), body, retry);
      && |o.session.link.trace| > |s.link.trace|
      && o.session.link.trace[|s.link.trace|]
         == ControlOut(REQUEST_COMMAND, 0, 0, Frame(id, s.count + 1, body), FirstWrite(s.link))
  {
    ExchangeSendsFirst(s.(count := s.count + 1), Hardware(id), body, retry);
  }

  /** The counter never wraps: at u16::MAX a reset (without `retry`) goes out
      first, and once it succeeds the command is sent with index 1; when it
      fails, its error is the result. */
  lemma {:induction false} CounterNeverWraps(s: Session, id: u32, body: seq<byte>, retry: bool)
    requires s.count == U16_MAX
    ensures var o := Request(s, Hardware(id), body, retry);
      && |o.session.link.trace| > |s.link.trace|
      && o.session.link.trace[|s.link.trace|]
         == ControlOut(REQUEST_COMMAND, 0, 0, Frame(RESET_COMMAND_ID, 0, []), FirstWrite(s.link))
    ensures var reset := Request(s, ResetCommandIndex, [], false);
      var o := Request(s, Hardware(id), body, retry);
      && (reset.result.Err? ==> o == reset)
      && (reset.result.Ok? ==>
            && |o.session.link.trace| > |reset.session.link.trace|
            && o.session.link.trace[|reset.session.link.trace|]
               == ControlOut(REQUEST_COMMAND, 0, 0, Frame(id, 1, body), FirstWrite(reset.session.link)))
  {
    var reset := Request(s, ResetCommandIndex, [], false);
    var o := Request(s, Hardware(id), body, retry);
    ResetSendsIndexZero(s, [], false);
    RequestAtMax(s, id, body, retry);
    if reset.result.Ok? {
      var next := reset.session.(count := reset.session.count + 1);
      assert next.count == 1;
      ExchangeSendsFirst(next, Hardware(id), body, retry);
      ExchangeGrowth(next, Hardware(id), body, retry);
      PrefixAt(reset.session.link.trace, o.session.link.trace, |s.link.trace|);
    }
  }

  /** At u16::MAX a command first runs a reset request. */
  lemma RequestAtMax(s: Session, id: u32, body: seq<byte>, retry: bool)
    requires s.count == U16_MAX
    ensures var reset := Request(s, ResetCommandIndex, [], false);
      reset.result.Err? ==> Request(s, Hardware(id), body, retry) == reset
    ensures var reset := Request(s, ResetCommandIndex, [], false);
      reset.result.Ok? ==>
        Request(s, Hardware(id), body, retry) == Exchange(reset.session.(count := reset.session.count + 1), Hardware(id), body, retry)
  {
  }

  lemma PrefixAt(a: seq<Event>, b: seq<Event>, i: nat)
    requires a <= b && i < |a|
    ensures i < |b| && b[i] == a[i]
  {
  }
}
