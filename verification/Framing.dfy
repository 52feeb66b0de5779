/** Cutting the incoming byte stream into frames: packet__read on MQTT packets, packet__read_smp on
  * the outer SMP frames, which have no command byte.  Reads may return any non-empty part of what
  * was asked for, or nothing for now. */
module Framing {
  import opened Bytes
  import RemainingLength

  datatype Frame = Frame(command: byte, body: seq<byte>)

  // ----- the stream as one piece -----

  datatype One = More | Bad | Got(frame: Frame, used: nat)

  /** A frame behind its command byte: length digits and body. */
  function Tail(command: byte, t: seq<byte>): (r: One)
    ensures r.Got? ==> 0 < r.used <= |t|
  {
    match RemainingLength.Decode(t)
    case Incomplete => More
    case TooLong => Bad
    case Complete(n, k) =>
      DecodeCount(t, 0, 0, 1);
      if |t| < k + n then More else Got(Frame(command, t[k..k + n]), k + n)
  }

  /** The first frame of `s`, read in one go.  `plain` says that frames start with a command byte. */
  function ParseOne(plain: bool, s: seq<byte>): (r: One)
    ensures r.Got? ==> 0 < r.used <= |s|
  {
    if !plain then Tail(0, s)
    else if s == [] then More
    else
      var r := Tail(s[0], s[1..]);
      if r.Got? then r.(used := r.used + 1) else r
  }

  lemma DecodeCount(s: seq<byte>, i: nat, value: nat, mult: nat)
    requires i <= |s|
    ensures var r := RemainingLength.DecodeAt(s, i, value, mult); r.Complete? ==> i < r.count <= |s|
    decreases |s| - i
  {
  }

  /** All frames of `s`, what is left behind the last one, and whether a length field is too long. */
  datatype Parsed = Parsed(frames: seq<Frame>, rest: seq<byte>, bad: bool)

  function ParseAll(plain: bool, s: seq<byte>): Parsed
    decreases |s|
  {
    match ParseOne(plain, s)
    case More => Parsed([], s, false)
    case Bad => Parsed([], s, true)
    case Got(f, n) =>
      var p := ParseAll(plain, s[n..]);
      Parsed([f] + p.frames, p.rest, p.bad)
  }

  // ----- the stream byte by byte -----

  /** What the in_packet fields stand for between two bytes, with the frames handed on so far. */
  datatype Reader = Reader(
    plain: bool, command: Option<byte>, digits: nat, length: nat, mult: nat, lengthDone: bool,
    body: seq<byte>, frames: seq<Frame>, failed: bool)

  function Start(plain: bool, frames: seq<Frame>): Reader {
    Reader(plain, if plain then None else Some(0), 0, 0, 1, false, [], frames, false)
  }

  function Deliver(r: Reader): Reader
    requires r.command.Some?
  {
    Start(r.plain, r.frames + [Frame(r.command.value, r.body)])
  }

  function Feed(r: Reader, b: byte): Reader {
    if r.failed then r
    else if r.command.None? then r.(command := Some(b))
    else if !r.lengthDone then
      if r.digits == 4 then r.(failed := true)
      else
        var d := r.(digits := r.digits + 1, length := r.length + b % 128 * r.mult, mult := r.mult * 128,
                    lengthDone := b < 128);
        if d.lengthDone && d.length == 0 then Deliver(d) else d
    else
      var d := r.(body := r.body + [b]);
      if |d.body| >= r.length then Deliver(d) else d
  }

  function FeedAll(r: Reader, s: seq<byte>): Reader
    decreases |s|
  {
    if s == [] then r else FeedAll(Feed(r, s[0]), s[1..])
  }

  lemma {:induction false} FeedAllAppend(r: Reader, a: seq<byte>, b: seq<byte>)
    ensures FeedAll(r, a + b) == FeedAll(FeedAll(r, a), b)
    decreases |a|
  {
    if a == [] {
      assert a + b == b;
    } else {
      assert (a + b)[1..] == a[1..] + b;
      FeedAllAppend(Feed(r, a[0]), a[1..], b);
    }
  }

  // ----- short reads -----

  /** The end of one call of the reader.  A command byte of 0 cannot be told from none and is forgotten. */
  function Pause(r: Reader): Reader {
    if r.plain && r.command == Some(0) then r.(command := None) else r
  }

  /** The stream as it arrives: one piece per call. */
  function Calls(r: Reader, pieces: seq<seq<byte>>): Reader
    decreases |pieces|
  {
    if pieces == [] then r else Calls(Pause(FeedAll(r, pieces[0])), pieces[1..])
  }

  function Concat(pieces: seq<seq<byte>>): seq<byte> {
    if pieces == [] then [] else pieces[0] + Concat(pieces[1..])
  }

  /** No frame in `s` starts with a zero byte. */
  predicate LeadsNonZero(r: Reader, s: seq<byte>)
    decreases |s|
  {
    s == [] || (!(r.command.None? && s[0] == 0 && !r.failed) && LeadsNonZero(Feed(r, s[0]), s[1..]))
  }

  predicate AtRest(r: Reader) {
    Pause(r) == r
  }

  lemma {:induction false} LeadsKeepRest(r: Reader, s: seq<byte>)
    requires AtRest(r) && LeadsNonZero(r, s)
    ensures AtRest(FeedAll(r, s))
    decreases |s|
  {
    if s != [] {
      LeadsKeepRest(Feed(r, s[0]), s[1..]);
    }
  }

  lemma {:induction false} LeadsSplit(r: Reader, a: seq<byte>, b: seq<byte>)
    ensures LeadsNonZero(r, a + b) <==> LeadsNonZero(r, a) && LeadsNonZero(FeedAll(r, a), b)
    decreases |a|
  {
    if a == [] {
      assert a + b == b;
    } else {
      assert (a + b)[1..] == a[1..] + b;
      LeadsSplit(Feed(r, a[0]), a[1..], b);
    }
  }

  /** However the stream is cut, the reader ends in the same state with the same frames handed on. */
  lemma {:induction false} ChunkingIrrelevant(r: Reader, pieces: seq<seq<byte>>)
    requires AtRest(r) && LeadsNonZero(r, Concat(pieces))
    ensures Calls(r, pieces) == FeedAll(r, Concat(pieces))
    decreases |pieces|
  {
    if pieces != [] {
      LeadsSplit(r, pieces[0], Concat(pieces[1..]));
      LeadsKeepRest(r, pieces[0]);
      FeedAllAppend(r, pieces[0], Concat(pieces[1..]));
      ChunkingIrrelevant(FeedAll(r, pieces[0]), pieces[1..]);
    }
  }

  /** The cut of `s` into `n` bytes and the rest has the same effect as no cut. */
  predicate CutHarmless(r: Reader, s: seq<byte>, n: nat)
    requires n <= |s|
  {
    Calls(r, [s[..n]]) == FeedAll(r, s[..n])
  }

  /** Chunking is irrelevant for every cut exactly if no frame starts with a zero byte; the outer
    * SMP frames have no command byte, so for them it always is. */
  lemma CutsHarmlessIff(r: Reader, s: seq<byte>)
    requires AtRest(r)
    ensures (forall n :: 0 <= n <= |s| ==> CutHarmless(r, s, n)) <==> !r.plain || LeadsNonZero(r, s)
  {
    if !r.plain {
      SmpLeads(r, s);
    } else if LeadsNonZero(r, s) {
      forall n | 0 <= n <= |s| ensures CutHarmless(r, s, n) {
        assert s == s[..n] + s[n..];
        LeadsSplit(r, s[..n], s[n..]);
        ChunkingOfOne(r, s[..n]);
        LeadsKeepRest(r, s[..n]);
      }
    } else {
      var n := ZeroLead(r, s);
      ChunkingOfOne(r, s[..n + 1]);
      assert !CutHarmless(r, s, n + 1);
    }
  }

  lemma ChunkingOfOne(r: Reader, s: seq<byte>)
    ensures Calls(r, [s]) == Pause(FeedAll(r, s))
  {
    assert [s][1..] == [];
  }

  lemma {:induction false} SmpNeverForgets(r: Reader, s: seq<byte>)
    requires !r.plain
    ensures !FeedAll(r, s).plain
    decreases |s|
  {
    if s != [] {
      SmpNeverForgets(Feed(r, s[0]), s[1..]);
    }
  }

  lemma SmpLeads(r: Reader, s: seq<byte>)
    requires !r.plain
    ensures forall n :: 0 <= n <= |s| ==> CutHarmless(r, s, n)
  {
    forall n | 0 <= n <= |s| ensures CutHarmless(r, s, n) {
      SmpNeverForgets(r, s[..n]);
      ChunkingOfOne(r, s[..n]);
    }
  }

  /** The position of a zero byte that starts a frame. */
  lemma {:induction false} ZeroLead(r: Reader, s: seq<byte>) returns (n: nat)
    requires r.plain && AtRest(r) && !LeadsNonZero(r, s)
    ensures n < |s| && FeedAll(r, s[..n + 1]).command == Some(0)
    ensures FeedAll(r, s[..n + 1]).plain
    decreases |s|
  {
    if r.command.None? && s[0] == 0 && !r.failed {
      n := 0;
      assert s[..1] == [s[0]] && [s[0]][1..] == [];
    } else {
      var m := ZeroLead(Feed(r, s[0]), s[1..]);
      n := m + 1;
      assert s[..n + 1][1..] == s[1..][..m + 1];
    }
  }

  // ----- byte by byte equals one piece -----

  /** Feeding `s` from digit `i` on has the effect that the decoded length `d` calls for. */
  predicate LengthRead(r: Reader, s: seq<byte>, i: nat, d: RemainingLength.Read)
    requires r.command.Some? && i <= |s|
  {
    match d
    case Incomplete => var e := FeedAll(r, s[i..]); e.frames == r.frames && !e.failed
    case TooLong => var e := FeedAll(r, s[i..]); e.frames == r.frames && e.failed
    case Complete(n, k) =>
      && i < k <= |s|
      && var e := FeedAll(r, s[i..k]);
      if n == 0 then e == Start(r.plain, r.frames + [Frame(r.command.value, [])])
      else
        && e.lengthDone && e.length == n && e.body == [] && e.frames == r.frames
        && e.command == r.command && !e.failed && e.plain == r.plain
  }

  /** Feeding `s` to a reader at the start of a frame has the effect that the parse `one` calls for. */
  predicate FrameRead(r: Reader, s: seq<byte>, one: One) {
    match one
    case More => var e := FeedAll(r, s); e.frames == r.frames && !e.failed
    case Bad => var e := FeedAll(r, s); e.frames == r.frames && e.failed
    case Got(f, n) => n <= |s| && FeedAll(r, s[..n]) == Start(r.plain, r.frames + [f])
  }

  /** The reader while it is inside one frame whose digits so far are `s[head..head + i]`. */
  lemma {:induction false} FeedLength(r: Reader, s: seq<byte>, i: nat)
    requires r.command.Some? && !r.failed && !r.lengthDone && r.digits == i && i <= 4 && i <= |s| && r.body == []
    ensures LengthRead(r, s, i, RemainingLength.DecodeAt(s, i, r.length, r.mult))
    decreases |s| - i
  {
    if i < |s| {
      var b := s[i];
      var e := Feed(r, b);
      assert s[i..][0] == b && s[i..][1..] == s[i + 1..];
      if i == 4 {
        FeedFailed(e, s[i + 1..]);
      } else if b >= 128 {
        FeedLength(e, s, i + 1);
        DecodeCount(s, i + 1, e.length, e.mult);
        match RemainingLength.DecodeAt(s, i + 1, e.length, e.mult) {
          case Complete(n, k) => assert s[i..k][0] == b && s[i..k][1..] == s[i + 1..k];
          case _ =>
        }
      } else {
        assert s[i..i + 1] == [b] && [b][1..] == [];
        assert FeedAll(r, [b]) == FeedAll(e, []);
      }
    }
  }

  lemma {:induction false} FeedFailed(r: Reader, s: seq<byte>)
    requires r.failed
    ensures FeedAll(r, s) == r
  {
    if s != [] {
      FeedFailed(r, s[1..]);
    }
  }

  lemma {:induction false} FeedBody(r: Reader, s: seq<byte>)
    requires r.command.Some? && !r.failed && r.lengthDone && |r.body| < r.length
    ensures var need := r.length - |r.body|;
            if |s| < need then FeedAll(r, s) == r.(body := r.body + s)
            else FeedAll(r, s[..need]) == Start(r.plain, r.frames + [Frame(r.command.value, r.body + s[..need])])
    decreases |s|
  {
    if s == [] {
      assert r.body + s == r.body;
    } else {
      var need := r.length - |r.body|;
      var e := Feed(r, s[0]);
      assert |s| >= need ==> s[..need][1..] == s[1..][..need - 1];
      if need > 1 {
        FeedBody(e, s[1..]);
        assert e.body + s[1..] == r.body + s;
        assert |s| >= need ==> e.body + s[1..][..need - 1] == r.body + s[..need];
      } else {
        assert s[..1] == [s[0]] && s[1..][..0] == [];
        assert FeedAll(r, [s[0]]) == FeedAll(e, []);
      }
    }
  }

  /** One frame. */
  lemma FeedOne(plain: bool, frames: seq<Frame>, s: seq<byte>)
    ensures FrameRead(Start(plain, frames), s, ParseOne(plain, s))
  {
    hide Tail;
    var r := Start(plain, frames);
    if !plain {
      FeedFromLength(r, s);
    } else if s != [] {
      FeedFromLength(Feed(r, s[0]), s[1..]);
      match ParseOne(plain, s) {
        case Got(f, n) => assert s[..n][1..] == s[1..][..n - 1];
        case _ =>
      }
    }
  }

  lemma FeedFromLength(r: Reader, t: seq<byte>)
    requires r.command.Some? && r == Start(r.plain, r.frames).(command := r.command)
    ensures FrameRead(r, t, Tail(r.command.value, t))
  {
    hide FeedAll, Feed;
    FeedLength(r, t, 0);
    assert t[0..] == t;
    var d := RemainingLength.Decode(t);
    if d.Complete? {
      var n, k := d.value, d.count;
      assert t[0..k] == t[..k];
      if n == 0 {
        assert t[k..k + n] == [];
      } else {
        FeedRest(r, t, k, n);
      }
    }
  }

  lemma FeedRest(r: Reader, t: seq<byte>, k: nat, n: nat)
    requires k <= |t| && n > 0
    requires var e := FeedAll(r, t[..k]);
             && e.lengthDone && e.length == n && e.body == [] && e.frames == r.frames
             && r.command.Some? && e.command == r.command && !e.failed && e.plain == r.plain
    ensures if |t| < k + n then FeedAll(r, t).frames == r.frames && !FeedAll(r, t).failed
            else FeedAll(r, t[..k + n]) == Start(r.plain, r.frames + [Frame(r.command.value, t[k..k + n])])
  {
    hide FeedAll, Feed;
    FeedBody(FeedAll(r, t[..k]), t[k..]);
    if |t| < k + n {
      FeedAllAppend(r, t[..k], t[k..]);
      assert t == t[..k] + t[k..];
    } else {
      FeedAllAppend(r, t[..k], t[k..][..n]);
      assert t[..k + n] == t[..k] + t[k..][..n];
      assert [] + t[k..][..n] == t[k..k + n];
    }
  }

  lemma FeedNone(r: Reader)
    ensures FeedAll(r, []) == r
  {
  }

  /** Fed byte by byte, the reader hands on exactly the frames that parsing the stream in one piece
    * gives, and fails exactly on streams with an over-long length, at the same place. */
  lemma {:induction false} FeedIsParse(plain: bool, frames: seq<Frame>, s: seq<byte>)
    ensures var e, p := FeedAll(Start(plain, frames), s), ParseAll(plain, s);
            && e.frames == frames + p.frames && e.failed == p.bad
            && e == FeedAll(Start(plain, e.frames), p.rest)
    decreases |s|
  {
    hide FeedAll, ParseOne;
    FeedNone(Start(plain, frames));
    FeedOne(plain, frames, s);
    match ParseOne(plain, s) {
      case Got(f, n) =>
        FeedIsParse(plain, frames + [f], s[n..]);
        assert s == s[..n] + s[n..];
        FeedAllAppend(Start(plain, frames), s[..n], s[n..]);
        var p := ParseAll(plain, s[n..]);
        assert frames + [f] + p.frames == frames + ([f] + p.frames);
      case _ =>
        assert frames + [] == frames;
    }
  }

  /** Together: however a stream whose frames do not start with zero is cut, the frames handed on are
    * those of the one-piece parser. */
  lemma ReaderIsParser(plain: bool, pieces: seq<seq<byte>>)
    requires LeadsNonZero(Start(plain, []), Concat(pieces))
    ensures var e, p := Calls(Start(plain, []), pieces), ParseAll(plain, Concat(pieces));
            e.frames == p.frames && e.failed == p.bad
  {
    ChunkingIrrelevant(Start(plain, []), pieces);
    FeedIsParse(plain, [], Concat(pieces));
  }

  // ----- streams that start no frame with zero -----

  lemma {:induction false} FramesGrow(r: Reader, s: seq<byte>)
    ensures |r.frames| <= |FeedAll(r, s).frames|
    decreases |s|
  {
    if s != [] {
      FramesGrow(Feed(r, s[0]), s[1..]);
    }
  }

  /** A frame whose command byte has been read has no further command byte before its end. */
  lemma {:induction false} LeadsInside(r: Reader, s: seq<byte>)
    requires r.command.Some? && s != []
    requires |FeedAll(r, s[..|s| - 1]).frames| == |r.frames|
    ensures LeadsNonZero(r, s)
    decreases |s|
  {
    var e := Feed(r, s[0]);
    if |s| > 1 {
      assert s[..|s| - 1][0] == s[0] && s[..|s| - 1][1..] == s[1..][..|s| - 2];
      FramesGrow(e, s[1..][..|s| - 2]);
      LeadsInside(e, s[1..]);
    }
  }

  /** A frame that starts with a non-zero command and is not over before its last byte. */
  lemma LeadsOfFrame(frames: seq<Frame>, s: seq<byte>)
    requires |s| > 1 && s[0] != 0 && ParseOne(true, s[..|s| - 1]) == More
    ensures LeadsNonZero(Start(true, frames), s)
  {
    hide ParseOne;
    var r, t := Start(true, frames), s[..|s| - 1];
    var e := r.(command := Some(s[0]));
    assert FeedAll(r, t).frames == frames by {
      FeedOne(true, frames, t);
    }
    assert FeedAll(e, s[1..][..|s| - 2]).frames == frames by {
      assert t[0] == s[0] && t[1..] == s[1..][..|s| - 2];
      assert Feed(r, s[0]) == e;
    }
    LeadsInside(e, s[1..]);
  }
}
