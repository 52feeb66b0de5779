/** The resumable readers packet__read and packet__read_smp over a socket that may return any
  * non-empty part of what was asked for, or nothing for now. */
module FrameReader {
  import opened Bytes
  import opened Framing

  datatype NetRead = Data(chunk: seq<byte>) | Eof | Again | Reset | Failed

  type pos = n: nat | n > 0 witness 1

  /** What the socket answers to a read: it gives up to `n` of the bytes that have arrived, or would block, or
    * the stream has ended, or the connection was reset, or the read fails. */
  datatype Answer = Gives(n: pos) | Blocks | Ends | Resets | Fails

  function Min(a: nat, b: nat): nat {
    if a <= b then a else b
  }

  /** How many bytes the code asks for next: single ones, and what is missing of a body. */
  function Wanted(r: Reader): nat {
    if r.command.Some? && r.lengthDone && |r.body| < r.length then r.length - |r.body| else 1
  }

  /** The return code for an answer without data.  Inside a body the end of the stream is not looked for. */
  function NoData(r: Reader, answer: Answer): Rc {
    match answer
    case Gives(_) => Success
    case Blocks => Success
    case Ends => if r.command.Some? && r.lengthDone then Errno else ConnLost
    case Resets => ConnLost
    case Fails => Errno
  }

  /** The outcome of a call: the reader, what has arrived and is not read, the answers left, the return code. */
  datatype Fetched = Fetched(reader: Reader, unread: seq<byte>, answers: seq<Answer>, rc: Rc)

  /** What the answers of the socket make of a call: it reads until a frame is handed on, a length is too
    * long, or the socket gives nothing.  A socket with no more answers, or without bytes, blocks. */
  function Fetch(r: Reader, unread: seq<byte>, answers: seq<Answer>): Fetched
    decreases |answers|
  {
    if answers == [] then Fetched(r, unread, [], Success)
    else if !answers[0].Gives? || unread == [] then Fetched(r, unread, answers[1..], NoData(r, answers[0]))
    else
      var k := Min(Min(answers[0].n, Wanted(r)), |unread|);
      var next := FeedAll(r, unread[..k]);
      if next.failed then Fetched(next, unread[k..], answers[1..], Protocol)
      else if |next.frames| > |r.frames| then Fetched(next, unread[k..], answers[1..], Success)
      else Fetch(next, unread[k..], answers[1..])
  }

  // ----- what the answers lead to -----

  /** What is read is a front part of what has arrived, and the reader is fed with just that. */
  lemma {:induction false} FetchReads(r: Reader, unread: seq<byte>, answers: seq<Answer>)
    ensures var e := Fetch(r, unread, answers);
            var n := |unread| - |e.unread|;
            0 <= n && e.unread == unread[n..] && e.reader == FeedAll(r, unread[..n])
    decreases |answers|
  {
    hide FeedAll, Wanted, NoData;
    NothingRead(r, unread);
    if answers != [] && answers[0].Gives? && unread != [] {
      var k := Min(Min(answers[0].n, Wanted(r)), |unread|);
      var next, rest := FeedAll(r, unread[..k]), unread[k..];
      if !next.failed && |next.frames| <= |r.frames| {
        var e := Fetch(next, rest, answers[1..]);
        FetchReads(next, rest, answers[1..]);
        ReadOn(r, unread, k, |rest| - |e.unread|);
      }
    }
  }

  lemma NothingRead(r: Reader, unread: seq<byte>)
    ensures unread[0..] == unread && FeedAll(r, unread[..0]) == r
  {
    assert unread[..0] == [];
  }

  lemma ReadOn(r: Reader, unread: seq<byte>, k: nat, n: nat)
    requires k + n <= |unread|
    ensures FeedAll(r, unread[..k + n]) == FeedAll(FeedAll(r, unread[..k]), unread[k..][..n])
    ensures unread[k..][n..] == unread[k + n..]
  {
    hide FeedAll;
    FeedAllAppend(r, unread[..k], unread[k..][..n]);
    assert unread[..k + n] == unread[..k] + unread[k..][..n];
  }

  /** How many answers at the beginning give something. */
  function Giving(answers: seq<Answer>): (n: nat)
    ensures n <= |answers| && forall i :: 0 <= i < n ==> answers[i].Gives?
    ensures n < |answers| ==> !answers[n].Gives?
  {
    if answers != [] && answers[0].Gives? then 1 + Giving(answers[1..]) else 0
  }

  lemma {:induction false} FramesGrow(r: Reader, s: seq<byte>)
    ensures |r.frames| <= |FeedAll(r, s).frames|
    decreases |s|
  {
    if s != [] {
      FramesGrow(Feed(r, s[0]), s[1..]);
    }
  }

  /** Every answer that gives something gives a byte at least: if a front part of what has arrived completes a
    * frame, or a length that is too long, as many of them as it has bytes are enough. */
  lemma {:induction false} FetchFinishes(r: Reader, unread: seq<byte>, answers: seq<Answer>, n: nat)
    requires !r.failed && n <= |unread| && n <= Giving(answers)
    requires FeedAll(r, unread[..n]).failed || |FeedAll(r, unread[..n]).frames| > |r.frames|
    ensures var e := Fetch(r, unread, answers);
            if e.reader.failed then e.rc == Protocol else e.rc == Success && |e.reader.frames| > |r.frames|
    decreases |answers|
  {
    hide FeedAll;
    NothingRead(r, unread);
    var k := Min(Min(answers[0].n, Wanted(r)), |unread|);
    var next, rest := FeedAll(r, unread[..k]), unread[k..];
    if !next.failed && |next.frames| == |r.frames| {
      if k <= n {
        ReadOn(r, unread, k, n - k);
        FetchFinishes(next, rest, answers[1..], n - k);
      } else {
        FeedAllAppend(r, unread[..n], unread[n..k]);
        assert unread[..k] == unread[..n] + unread[n..k];
        FramesGrow(FeedAll(r, unread[..n]), unread[n..k]);
        FeedFailed(FeedAll(r, unread[..n]), unread[n..k]);
      }
    }
    FramesGrow(r, unread[..k]);
  }

  /** Otherwise the call ends at the first answer that gives nothing, which decides the return code. */
  lemma {:induction false} FetchStops(r: Reader, unread: seq<byte>, answers: seq<Answer>)
    requires !r.failed
    ensures var e, n := Fetch(r, unread, answers), Giving(answers);
            !e.reader.failed && |e.reader.frames| == |r.frames| ==>
              if e.unread == [] && |answers| - |e.answers| <= n then e.rc == Success
              else if n == |answers| then e.answers == [] && e.rc == Success
              else e.answers == answers[n + 1..] && e.rc == NoData(e.reader, answers[n])
    decreases |answers|
  {
    hide FeedAll, Wanted, NoData;
    if answers != [] && answers[0].Gives? && unread != [] {
      var k := Min(Min(answers[0].n, Wanted(r)), |unread|);
      var next := FeedAll(r, unread[..k]);
      FramesGrow(r, unread[..k]);
      if !next.failed && |next.frames| == |r.frames| {
        FetchStops(next, unread[k..], answers[1..]);
        FetchShorter(next, unread[k..], answers[1..]);
      }
    }
    GivesSuccess(r, answers);
  }

  lemma GivesSuccess(r: Reader, answers: seq<Answer>)
    ensures answers != [] && answers[0].Gives? ==> NoData(r, answers[0]) == Success
  {
  }

  lemma {:induction false} FetchShorter(r: Reader, unread: seq<byte>, answers: seq<Answer>)
    ensures |Fetch(r, unread, answers).answers| <= |answers|
    decreases |answers|
  {
    hide FeedAll, Wanted, NoData;
    if answers != [] && answers[0].Gives? && unread != [] {
      var k := Min(Min(answers[0].n, Wanted(r)), |unread|);
      FetchShorter(FeedAll(r, unread[..k]), unread[k..], answers[1..]);
    }
  }

  /** Asking for no more than is wanted, the reader never gets past the end of a frame. */
  lemma NotPast(r: Reader, s: seq<byte>, k: nat, n: nat)
    requires !r.failed && k <= |s| && n <= |s| && k <= Wanted(r) && |FeedAll(r, s[..n]).frames| > |r.frames|
    ensures k <= n
  {
    hide FeedAll, Feed;
    NothingRead(r, s);
    if r.command.Some? && r.lengthDone && |r.body| < r.length {
      FeedBody(r, s[..n]);
    }
  }

  /** So a call stops with the byte that completes a frame. */
  lemma {:induction false} FetchNoFurther(r: Reader, unread: seq<byte>, answers: seq<Answer>, n: nat)
    requires !r.failed && n <= |unread| && |FeedAll(r, unread[..n]).frames| > |r.frames|
    ensures |Fetch(r, unread, answers).unread| >= |unread| - n
    decreases |answers|
  {
    hide FeedAll, Wanted, NoData;
    if answers != [] && answers[0].Gives? && unread != [] {
      var k := Min(Min(answers[0].n, Wanted(r)), |unread|);
      var next := FeedAll(r, unread[..k]);
      NotPast(r, unread, k, n);
      if !next.failed && |next.frames| <= |r.frames| {
        ReadOn(r, unread, k, n - k);
        FetchNoFurther(next, unread[k..], answers[1..], n - k);
      }
    }
  }

  /** Inside a frame. */
  predicate Inside(r: Reader) {
    r.failed || (r.plain && r.command.Some?) || r.digits > 0
  }

  lemma {:induction false} StaysInside(r: Reader, s: seq<byte>)
    requires Inside(r) || (r == Start(r.plain, r.frames) && s != [])
    ensures Inside(FeedAll(r, s)) || |FeedAll(r, s).frames| > |r.frames|
    decreases |s|
  {
    if s != [] {
      var e := Feed(r, s[0]);
      FramesGrow(e, s[1..]);
      if |e.frames| <= |r.frames| {
        StaysInside(e, s[1..]);
      }
    }
  }

  /** Liveness: if the first frame of what has arrived is complete and the socket gives something as often as
    * it has bytes, one call hands on that frame and nothing else, and leaves the rest unread. */
  lemma FirstFrameFetched(plain: bool, frames: seq<Frame>, unread: seq<byte>, answers: seq<Answer>)
    requires ParseOne(plain, unread).Got? && Giving(answers) >= ParseOne(plain, unread).used
    ensures var e, one := Fetch(Start(plain, frames), unread, answers), ParseOne(plain, unread);
            && e.rc == Success && e.reader == Start(plain, frames + [one.frame]) && e.unread == unread[one.used..]
  {
    hide FeedAll, ParseOne, Fetch;
    var r, one := Start(plain, frames), ParseOne(plain, unread);
    var e, n := Fetch(r, unread, answers), one.used;
    FeedOne(plain, frames, unread);
    FetchFinishes(r, unread, answers, n);
    FetchReads(r, unread, answers);
    FetchNoFurther(r, unread, answers, n);
    var m := |unread| - |e.unread|;
    assert m <= n;
    FeedAllAppend(r, unread[..m], unread[m..n]);
    assert unread[..n] == unread[..m] + unread[m..n];
    if e.reader.failed {
      FeedFailed(e.reader, unread[m..n]);
    } else {
      FramesGrow(e.reader, unread[m..n]);
      WholeFrame(r, unread[..m], unread[m..n]);
    }
  }

  lemma {:induction false} StartOrInside(r: Reader, s: seq<byte>)
    requires Inside(r) || r == Start(r.plain, r.frames)
    ensures var e := FeedAll(r, s); Inside(e) || e == Start(e.plain, e.frames)
    decreases |s|
  {
    if s != [] {
      StartOrInside(Feed(r, s[0]), s[1..]);
    }
  }

  /** With bytes behind the end of a frame the reader is inside the next one. */
  lemma WholeFrame(r: Reader, s: seq<byte>, more: seq<byte>)
    requires r == Start(r.plain, r.frames)
    ensures var e := FeedAll(FeedAll(r, s), more);
            more == [] || Inside(e) || |e.frames| > |FeedAll(r, s).frames|
  {
    hide FeedAll, Inside;
    StartOrInside(r, s);
    if more != [] {
      StaysInside(FeedAll(r, s), more);
    }
  }

  /** The receiving side of a connection: what has arrived, and the answers that it is going to give. */
  class Net {
    var unread: seq<byte>
    var answers: seq<Answer>
    ghost var consumed: seq<byte>

    constructor (unread: seq<byte>, answers: seq<Answer>)
      ensures this.unread == unread && this.answers == answers && consumed == []
    {
      this.unread, this.answers, consumed := unread, answers, [];
    }

    /** net__read. */
    method Read(count: nat) returns (r: NetRead)
      requires count > 0
      modifies this
      ensures answers == if old(answers) == [] then [] else old(answers)[1..]
      ensures if old(answers) != [] && old(answers)[0].Gives? && old(unread) != [] then
                var k := Min(Min(old(answers)[0].n, count), |old(unread)|);
                && r == Data(old(unread)[..k]) && unread == old(unread)[k..]
                && consumed == old(consumed) + old(unread)[..k]
              else
                && unread == old(unread) && consumed == old(consumed)
                && r == if old(answers) == [] then Again
                        else match old(answers)[0]
                             case Gives(_) => Again
                             case Blocks => Again
                             case Ends => Eof
                             case Resets => Reset
                             case Fails => Failed
    {
      if answers == [] {
        return Again;
      }
      var answer := answers[0];
      answers := answers[1..];
      match answer {
        case Gives(n) =>
          if unread == [] {
            return Again;
          }
          var k := Min(Min(n, count), |unread|);
          r := Data(unread[..k]);
          consumed, unread := consumed + unread[..k], unread[k..];
        case Blocks => return Again;
        case Ends => return Eof;
        case Resets => return Reset;
        case Fails => return Failed;
      }
    }
  }

  class FrameReader {
    const net: Net
    const plain: bool
    var command: byte
    var remainingCount: int
    var remainingMult: int
    var remainingLength: int
    var toProcess: int
    var pos: int
    var payload: array<byte>
    var frames: seq<Frame>   // handed to handle__packet or to wclSmpProcessMessage

    /** No length value or multiplier reaches 2 to the 32nd, so uint32_t arithmetic is exact. */
    ghost predicate Valid()
      reads this
    {
      && -5 <= remainingCount <= 4 && (!plain ==> command == 0)
      && 0 <= remainingLength < 0x1000_0000 && 1 <= remainingMult <= 0x1000_0000
      && (remainingCount <= 0 ==> pos == 0 && toProcess == 0)
      && (remainingCount > 0 ==>
            remainingLength == payload.Length > 0 && 0 <= pos < payload.Length && toProcess == payload.Length - pos)
      && (-4 <= remainingCount <= 0 ==> Mult(-remainingCount) == remainingMult && remainingLength < remainingMult)
    }

    /** The state between two bytes, `c` being the command byte if it has been read. */
    ghost function During(c: Option<byte>): Reader
      reads this, payload
      requires Valid()
    {
      var digits := if remainingCount < -4 then 4 else if remainingCount < 0 then -remainingCount else remainingCount;
      Reader(plain, c, digits, remainingLength, remainingMult, remainingCount > 0, payload[..pos], frames,
             remainingCount < -4)
    }

    /** The state between two calls: a command field of 0 means that none has been read. */
    ghost function Abs(): Reader
      reads this, payload
      requires Valid()
    {
      During(if !plain then Some(0) else if command == 0 then None else Some(command))
    }

    constructor (net: Net, plain: bool)
      ensures Valid() && Abs() == Start(plain, []) && this.net == net && this.plain == plain && fresh(payload)
    {
      this.net, this.plain := net, plain;
      command, remainingCount, remainingMult, remainingLength, toProcess, pos := 0, 0, 1, 0, 0, 0;
      payload, frames := new byte[0], [];
    }

    /** What is left of a call if the reader is now `r`. */
    ghost function Ahead(r: Reader): Fetched
      reads net
    {
      Fetch(r, net.unread, net.answers)
    }

    /** The call ends here with the reader `r`. */
    ghost function Ended(r: Reader, rc: Rc): Fetched
      reads net
    {
      Fetched(r, net.unread, net.answers, rc)
    }

    /** The reader behind the last length digit. */
    ghost function LengthRead(c: Option<byte>): Reader
      reads this, payload
      requires Valid() && c.Some?
    {
      if remainingLength == 0 then Deliver(During(c)) else During(c).(lengthDone := true)
    }

    /** Read one length digit; `more` says that it is not the last one. */
    method ReadDigit(ghost c: Option<byte>) returns (rc: Rc, read: bool, more: bool, ghost got: seq<byte>)
      requires Valid() && -4 <= remainingCount <= 0 && c.Some?
      modifies net, this`remainingCount, this`remainingMult, this`remainingLength
      ensures Valid() && net.consumed == old(net.consumed) + got
      ensures remainingCount == old(remainingCount) - if read || rc == Protocol then 1 else 0
      ensures read ==> rc == Success && -4 <= remainingCount
      ensures read ==> FeedAll(old(During(c)), got) == if more then During(c) else LengthRead(c)
      ensures read && more ==> old(Ahead(During(c))) == Ahead(During(c))
      ensures read && !more ==>
                old(Ahead(During(c))) ==
                if remainingLength == 0 then Ended(LengthRead(c), Success) else Ahead(LengthRead(c))
      ensures !read ==> FeedAll(old(During(c)), got) == During(c) && old(Ahead(During(c))) == Ended(During(c), rc)
    {
      hide FeedAll, Feed, Mult, Fetch;
      ghost var was := During(c);
      FetchStep(was, net.unread, net.answers);
      FeedNone(was);
      var r := net.Read(1);
      got := [];
      if !r.Data? {
        rc := if r.Again? then Success else if r.Eof? || r.Reset? then ConnLost else Errno;
        return rc, false, false, [];
      }
      var b := r.chunk[0];
      assert r.chunk == [b];
      FeedDigit(was, b);
      got := [b];
      remainingCount := remainingCount - 1;
      if remainingCount < -4 {
        return Protocol, false, false, got;
      }
      DigitBound(b, remainingMult, remainingLength, -remainingCount);
      remainingLength := remainingLength + b % 128 * remainingMult;
      remainingMult := remainingMult * 128;
      return Success, true, b >= 128, got;
    }

    /** Read length digits, one byte at a time. */
    method ReadLength(ghost c: Option<byte>) returns (rc: Rc, done: bool, ghost got: seq<byte>)
      requires Valid() && -4 <= remainingCount <= 0 && c.Some?
      modifies net, this`remainingCount, this`remainingMult, this`remainingLength, this`toProcess, this`payload
      ensures net.consumed == old(net.consumed) + got
      ensures payload == old(payload) || fresh(payload)
      ensures !done ==> Valid() && remainingCount <= 0
      ensures !done ==> FeedAll(old(During(c)), got) == During(c) && old(Ahead(During(c))) == Ended(During(c), rc)
      ensures !done && rc == Success ==> remainingCount >= -4
      ensures done ==> rc == Success && remainingLength >= 0
      ensures done && remainingLength > 0 ==>
                && Valid() && remainingCount > 0 && pos == 0 && FeedAll(old(During(c)), got) == During(c)
                && old(Ahead(During(c))) == Ahead(During(c))
      ensures done && remainingLength == 0 ==>
                var e := Start(plain, frames + [Frame(c.value, [])]);
                toProcess == 0 && FeedAll(old(During(c)), got) == e && old(Ahead(During(c))) == Ended(e, Success)
    {
      hide FeedAll, Mult, Fetch;
      got := [];
      ghost var start, goal := During(c), Ahead(During(c));
      FeedNone(start);
      var more := true;
      while more
        invariant Valid() && -4 <= remainingCount <= 0 && net.consumed == old(net.consumed) + got
        invariant payload == old(payload)
        invariant !more ==> remainingCount < 0
        invariant FeedAll(start, got) == if more then During(c) else LengthRead(c)
        invariant goal ==
                  if !more && remainingLength == 0 then Ended(LengthRead(c), Success)
                  else Ahead(if more then During(c) else LengthRead(c))
        decreases if more then remainingCount + 5 else 0
      {
        ghost var was, digit := During(c), [];
        var read;
        rc, read, more, digit := ReadDigit(c);
        FeedAllAppend(start, got, digit);
        got := got + digit;
        if !read {
          return rc, false, got;
        }
      }
      remainingCount := -remainingCount;
      if remainingLength > 0 {
        payload := new byte[remainingLength];
        toProcess := remainingLength;
      }
      return Success, true, got;
    }

    /** Read a piece of the body. */
    method ReadPiece(ghost c: Option<byte>) returns (rc: Rc, read: bool, ghost got: seq<byte>)
      requires Valid() && remainingCount > 0 && c.Some?
      modifies net, this`toProcess, this`pos, payload
      ensures net.consumed == old(net.consumed) + got
      ensures 0 <= pos <= payload.Length && toProcess == payload.Length - pos
      ensures read ==> rc == Success && toProcess < old(toProcess)
      ensures toProcess == 0 ==>
                var e := Start(plain, frames + [Frame(c.value, payload[..])]);
                read && FeedAll(old(During(c)), got) == e && old(Ahead(During(c))) == Ended(e, Success)
      ensures toProcess > 0 ==>
                && Valid() && FeedAll(old(During(c)), got) == During(c)
                && old(Ahead(During(c))) == if read then Ahead(During(c)) else Ended(During(c), rc)
    {
      hide FeedAll, Mult, Feed, Fetch;
      ghost var was, body := During(c), payload[..pos];
      FeedNone(was);
      FetchStep(was, net.unread, net.answers);
      got := [];
      var r := net.Read(toProcess);
      if !r.Data? {
        // The end of the stream leaves errno at 0 here.
        rc := if r.Again? then Success else if r.Reset? then ConnLost else Errno;
        return rc, false, [];
      }
      var n := |r.chunk|;
      FeedBody(was, r.chunk);
      got := r.chunk;
      forall k | 0 <= k < n {
        payload[pos + k] := r.chunk[k];
      }
      assert r.chunk[..n] == r.chunk;
      assert payload[..pos + n] == body + r.chunk;
      toProcess := toProcess - n;
      pos := pos + n;
      assert toProcess == 0 ==> payload[..] == payload[..pos];
      return Success, true, got;
    }

    /** Read the rest of the body, in pieces of any size. */
    method ReadBody(ghost c: Option<byte>) returns (rc: Rc, ghost got: seq<byte>)
      requires Valid() && remainingCount > 0 && c.Some?
      modifies net, this`toProcess, this`pos, payload
      ensures net.consumed == old(net.consumed) + got
      ensures toProcess == 0 ==>
                var e := Start(plain, frames + [Frame(c.value, payload[..])]);
                && rc == Success && pos == payload.Length == remainingLength
                && FeedAll(old(During(c)), got) == e && old(Ahead(During(c))) == Ended(e, Success)
      ensures toProcess != 0 ==>
                Valid() && FeedAll(old(During(c)), got) == During(c) && old(Ahead(During(c))) == Ended(During(c), rc)
    {
      hide FeedAll, Mult, Feed, Fetch;
      got := [];
      ghost var start, goal := During(c), Ahead(During(c));
      FeedNone(start);
      while toProcess > 0
        invariant 0 <= pos <= payload.Length && toProcess == payload.Length - pos
        invariant net.consumed == old(net.consumed) + got
        invariant toProcess > 0 ==> Valid() && FeedAll(start, got) == During(c) && goal == Ahead(During(c))
        invariant toProcess == 0 ==>
                    var e := Start(plain, frames + [Frame(c.value, payload[..])]);
                    FeedAll(start, got) == e && goal == Ended(e, Success)
        decreases toProcess
      {
        ghost var piece;
        var read;
        rc, read, piece := ReadPiece(c);
        FeedAllAppend(start, got, piece);
        got := got + piece;
        if !read {
          return rc, got;
        }
      }
      return Success, got;
    }

    /** packet__cleanup. */
    method Cleanup()
      modifies this`command, this`remainingCount, this`remainingMult, this`remainingLength, this`toProcess, this`pos,
               this`payload
      ensures Valid() && Abs() == Start(plain, frames) && remainingCount == 0 && fresh(payload)
    {
      command, remainingCount, remainingMult, remainingLength, toProcess, pos := 0, 0, 1, 0, 0, 0;
      payload := new byte[0];
    }

    /** Read the command byte of an MQTT packet, if there is none yet. */
    method ReadCommand() returns (rc: Rc, done: bool, ghost got: seq<byte>)
      requires Valid() && remainingCount >= -4
      modifies net, this`command
      ensures Valid() && net.consumed == old(net.consumed) + got
      ensures done ==>
                && FeedAll(old(Abs()), got) == During(Some(command))
                && old(Ahead(Abs())) == Ahead(During(Some(command)))
      ensures !done ==>
                && got == [] && Abs() == old(Abs()) == Pause(Abs())
                && old(Ahead(Abs())) == Ended(Abs(), rc)
    {
      hide FeedAll, Fetch;
      FeedNone(Abs());
      FetchStep(Abs(), net.unread, net.answers);
      got := [];
      if plain && command == 0 {
        ghost var start := Abs();
        var r := net.Read(1);
        if !r.Data? {
          rc := if r.Again? then Success else if r.Eof? || r.Reset? then ConnLost else Errno;
          return rc, false, [];
        }
        FeedLast(start, [], r.chunk[0]);
        assert [] + [r.chunk[0]] == r.chunk;
        command, got := r.chunk[0], r.chunk;
      }
      return Success, true, got;
    }

    /** packet__read, or packet__read_smp when frames have no command byte.  The reader goes where feeding it
      * the bytes consumed in this call one by one leads; how many these are, and what the call returns, is
      * decided by the answers of the socket. */
    method PacketRead() returns (rc: Rc, ghost got: seq<byte>)
      requires Valid() && remainingCount >= -4
      modifies net, this, payload
      ensures Valid() && net.consumed == old(net.consumed) + got
      ensures Abs() == Pause(FeedAll(old(Abs()), got))
      ensures rc == Success ==> remainingCount >= -4
      ensures var e := old(Ahead(Abs()));
              Abs() == Pause(e.reader) && net.unread == e.unread && net.answers == e.answers && rc == e.rc
    {
      hide FeedAll, Feed, Mult, Fetch;
      ghost var start := Abs();
      FeedNone(start);
      var done;
      rc, done, got := ReadCommand();
      if !done {
        return;
      }
      ghost var c, more := Some(command), [];
      if remainingCount <= 0 {
        rc, done, more := ReadLength(c);
        FeedAllAppend(start, got, more);
        got := got + more;
        if !done {
          return;
        }
      }
      if toProcess > 0 {
        rc, more := ReadBody(c);
        FeedAllAppend(start, got, more);
        got := got + more;
        if toProcess > 0 {
          return;
        }
      }
      assert payload[..remainingLength] == if remainingLength == 0 then [] else payload[..];
      frames := frames + [Frame(command, payload[..remainingLength])];
      Cleanup();
    }
  }

  /** One read. */
  lemma FetchStep(r: Reader, unread: seq<byte>, answers: seq<Answer>)
    ensures Fetch(r, unread, answers) ==
            if answers == [] then Fetched(r, unread, [], Success)
            else if !answers[0].Gives? || unread == [] then Fetched(r, unread, answers[1..], NoData(r, answers[0]))
            else
              var k := Min(Min(answers[0].n, Wanted(r)), |unread|);
              var next := FeedAll(r, unread[..k]);
              if next.failed then Fetched(next, unread[k..], answers[1..], Protocol)
              else if |next.frames| > |r.frames| then Fetched(next, unread[k..], answers[1..], Success)
              else Fetch(next, unread[k..], answers[1..])
  {
  }

  function Mult(digits: nat): nat {
    if digits == 0 then 1 else 128 * Mult(digits - 1)
  }

  lemma DigitBound(b: byte, mult: int, length: int, digits: nat)
    requires 1 <= digits <= 4 && mult == Mult(digits - 1) && 0 <= length < mult
    ensures 0 <= length + b % 128 * mult < mult * 128 == Mult(digits) <= 0x1000_0000
  {
    assert Mult(1) == 128 && Mult(2) == 16384;
    assert Mult(3) == 2097152 && Mult(4) == 268435456;
    var low: nat := b % 128;
    match digits
    case 1 => assert mult == 1;
    case 2 => assert mult == 128;
    case 3 => assert mult == 16384;
    case _ => assert mult == 2097152;
  }

  /** One length digit. */
  lemma FeedDigit(r: Reader, b: byte)
    requires r.command.Some? && !r.failed && !r.lengthDone
    ensures var d := r.(digits := r.digits + 1, length := r.length + b % 128 * r.mult, mult := r.mult * 128,
                        lengthDone := b < 128);
            FeedAll(r, [b]) ==
            if r.digits == 4 then r.(failed := true) else if b < 128 && d.length == 0 then Deliver(d) else d
  {
    FeedLast(r, [], b);
    assert [] + [b] == [b];
  }

  lemma FeedLast(r: Reader, s: seq<byte>, b: byte)
    ensures FeedAll(r, s + [b]) == Feed(FeedAll(r, s), b)
  {
    FeedAllAppend(r, s, [b]);
    assert [b][1..] == [];
  }
}
