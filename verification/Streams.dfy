/** Whole frames on the wire and what any cut of a stream of them makes the reader hand on. */
module Streams {
  import opened Bytes
  import opened Framing
  import RemainingLength

  /** A frame as packet__alloc lays it out; the outer SMP frames of mosq_wclSmpGetMessage have no
    * command byte. */
  function Wire(plain: bool, f: Frame): (s: seq<byte>)
    ensures |s| > 0
  {
    (if plain then [f.command] else []) + RemainingLength.Encode(|f.body|) + f.body
  }

  function Stream(plain: bool, frames: seq<Frame>): seq<byte> {
    if frames == [] then [] else Wire(plain, frames[0]) + Stream(plain, frames[1..])
  }

  /** Frames that can be written, with a command byte that the reader can tell from none. */
  predicate Fits(plain: bool, f: Frame) {
    |f.body| < RemainingLength.LIMIT && (plain <==> f.command != 0)
  }

  lemma TailOfFrame(f: Frame, rest: seq<byte>)
    requires |f.body| < RemainingLength.LIMIT
    ensures var digits := RemainingLength.Encode(|f.body|);
            Tail(f.command, digits + (f.body + rest)) == Got(f, |digits| + |f.body|)
  {
    var digits := RemainingLength.Encode(|f.body|);
    var t := digits + (f.body + rest);
    RemainingLength.DecodeInvertsEncode(|f.body|, f.body + rest);
    assert t[|digits|..|digits| + |f.body|] == f.body;
  }

  /** A frame at the front of a stream is the first that the reader sees. */
  lemma FirstFrame(plain: bool, f: Frame, rest: seq<byte>)
    requires |f.body| < RemainingLength.LIMIT && (!plain ==> f.command == 0)
    ensures ParseOne(plain, Wire(plain, f) + rest) == Got(f, |Wire(plain, f)|)
  {
    hide Tail, RemainingLength.Encode;
    var t, s := RemainingLength.Encode(|f.body|) + (f.body + rest), Wire(plain, f) + rest;
    TailOfFrame(f, rest);
    if plain {
      assert s[0] == f.command && s[1..] == t;
    } else {
      assert s == t;
    }
  }

  /** A frame that is not complete is not handed on. */
  lemma FrontOfFrame(plain: bool, f: Frame, n: nat)
    requires |f.body| < RemainingLength.LIMIT && n < |Wire(plain, f)|
    ensures ParseOne(plain, Wire(plain, f)[..n]) == More
  {
    var digits, head := RemainingLength.Encode(|f.body|), if plain then 1 else 0;
    var s := Wire(plain, f)[..n];
    if head + |digits| <= n {
      assert s[head..] == digits + f.body[..n - head - |digits|];
      RemainingLength.DecodeInvertsEncode(|f.body|, f.body[..n - head - |digits|]);
    } else if head <= n {
      assert s[head..] == digits[..n - head];
      RemainingLength.DecodeFront(|f.body|, n - head);
    }
    assert !plain ==> s[0..] == s;
  }

  /** The frames of a stream, whatever follows it. */
  lemma {:induction false} StreamParses(plain: bool, frames: seq<Frame>, rest: seq<byte>)
    requires forall f <- frames :: |f.body| < RemainingLength.LIMIT && (!plain ==> f.command == 0)
    ensures var p := ParseAll(plain, rest);
            ParseAll(plain, Stream(plain, frames) + rest) == Parsed(frames + p.frames, p.rest, p.bad)
    decreases |frames|
  {
    hide Wire, ParseOne;
    if frames == [] {
      assert [] + rest == rest;
    } else {
      var w, more := Wire(plain, frames[0]), Stream(plain, frames[1..]);
      assert Stream(plain, frames) + rest == w + (more + rest);
      FirstFrame(plain, frames[0], more + rest);
      assert (w + (more + rest))[|w|..] == more + rest;
      ghost var p := ParseAll(plain, rest).frames;
      assert [frames[0]] + (frames[1..] + p) == frames + p;
      StreamParses(plain, frames[1..], rest);
    }
  }

  /** No frame of a stream, not even an incomplete one at its end, starts with a zero byte. */
  lemma LeadsOfFront(plain: bool, before: seq<Frame>, f: Frame, n: nat)
    requires Fits(plain, f) && n <= |Wire(plain, f)|
    ensures LeadsNonZero(Start(plain, before), Wire(plain, f)[..n])
  {
    var s := Wire(plain, f)[..n];
    if !plain {
      LeadsOfSmp(Start(plain, before), s);
    } else if n == 1 {
      assert s[1..] == [];
    } else if n > 1 {
      FrontOfFrame(plain, f, n - 1);
      assert s[..n - 1] == Wire(plain, f)[..n - 1];
      LeadsOfFrame(before, s);
    }
  }

  lemma {:induction false} LeadsOfSmp(r: Reader, s: seq<byte>)
    requires !r.plain && r.command.Some?
    ensures LeadsNonZero(r, s)
    decreases |s|
  {
    if s != [] {
      LeadsOfSmp(Feed(r, s[0]), s[1..]);
    }
  }

  lemma {:induction false} LeadsOfStream(plain: bool, before: seq<Frame>, frames: seq<Frame>, rest: seq<byte>)
    requires forall f <- frames :: Fits(plain, f)
    requires LeadsNonZero(Start(plain, before + frames), rest)
    ensures LeadsNonZero(Start(plain, before), Stream(plain, frames) + rest)
    decreases |frames|
  {
    hide Wire, LeadsNonZero;
    if frames == [] {
      assert before + [] == before && [] + rest == rest;
    } else {
      var w, more := Wire(plain, frames[0]), Stream(plain, frames[1..]);
      assert w[..|w|] == w && w + [] == w;
      LeadsOfFront(plain, before, frames[0], |w|);
      FirstFrame(plain, frames[0], []);
      FeedOne(plain, before, w);
      assert before + [frames[0]] + frames[1..] == before + frames;
      LeadsOfStream(plain, before + [frames[0]], frames[1..], rest);
      LeadsSplit(Start(plain, before), w, more + rest);
      assert Stream(plain, frames) + rest == w + (more + rest);
    }
  }

  /** The front of one more frame: empty, or cut before its end. */
  ghost predicate Front(plain: bool, part: seq<byte>) {
    part == [] || exists f :: Fits(plain, f) && |part| < |Wire(plain, f)| && part == Wire(plain, f)[..|part|]
  }

  /** However a stream of frames, with or without the front of one more, is cut into pieces: exactly
    * the frames that are complete are handed on, in order. */
  lemma StreamThroughSocket(plain: bool, frames: seq<Frame>, part: seq<byte>, pieces: seq<seq<byte>>)
    requires (forall f <- frames :: Fits(plain, f)) && Front(plain, part)
    requires Concat(pieces) == Stream(plain, frames) + part
    ensures var r := Calls(Start(plain, []), pieces); r.frames == frames && !r.failed
  {
    hide Wire, LeadsNonZero;
    assert LeadsNonZero(Start(plain, [] + frames), part) && ParseOne(plain, part) == More by {
      if part == [] {
        NothingLeads(plain, frames);
      } else {
        var f :| Fits(plain, f) && |part| < |Wire(plain, f)| && part == Wire(plain, f)[..|part|];
        LeadsOfFront(plain, [] + frames, f, |part|);
        FrontOfFrame(plain, f, |part|);
      }
    }
    LeadsOfStream(plain, [], frames, part);
    ReaderIsParser(plain, pieces);
    StreamParses(plain, frames, part);
    assert frames + [] == frames;
  }

  lemma NothingLeads(plain: bool, frames: seq<Frame>)
    ensures LeadsNonZero(Start(plain, [] + frames), []) && ParseOne(plain, []) == More
  {
  }
}
