/** SMP frames that are altered on the way: what signatures and associated data are for.  Boxes and
  * signatures are those made in the session; everything around them may be anything. */
module SmpIntegrity {
  import opened Bytes
  import opened SmpHeader
  import opened Smp
  import opened SmpRuns

  /** Header, label and packet are concatenated without lengths, and so are the signed octets.  A string
    * that begins with a packed header can still be read with another header only if that one is longer;
    * it has the same fields. */
  lemma Follows(h: Header, after: seq<byte>, header: seq<byte>, rest: seq<byte>)
    requires Packable(h) && Unpack(header).Some? && rest != [] && rest[0] != BREAK
    requires Pack(h) + after == header + rest
    ensures Unpack(header).value.header == h
    ensures var d := |header| - |Pack(h)|;
            0 <= d <= |after| && header == Pack(h) + after[..d] && rest == after[d..]
  {
    hide Pack, Unpack;
    var whole, s := Pack(h), Pack(h) + after;
    NotShorter(h, after, header, rest);
    assert header == s[..|header|] && whole == s[..|whole|] && rest == s[|header|..];
    UnpackInvertsPack(h);
    UnpackMore(whole, header[|whole|..]);
    assert whole + header[|whole|..] == header;
    assert header[|whole|..] == after[..|header| - |whole|];
  }

  /** A shorter header lacks only the closing octet, which is then what follows it. */
  lemma NotShorter(h: Header, after: seq<byte>, header: seq<byte>, rest: seq<byte>)
    requires Packable(h) && Unpack(header).Some? && rest != []
    requires Pack(h) + after == header + rest
    ensures |header| < |Pack(h)| ==> rest[0] == BREAK
  {
    hide Pack, Unpack;
    var whole, s := Pack(h), Pack(h) + after;
    if |header| < |whole| {
      assert header == s[..|header|] == whole[..|header|];
      FrontOfHeader(h, |header|);
      assert whole[|header|] == s[|header|] == rest[0];
    }
  }

  // ----- control frames -----

  predicate OccursAt(part: seq<byte>, s: seq<byte>, d: nat) {
    d + |part| <= |s| && s[d..d + |part|] == part
  }

  /** What is authenticated besides the header: the label, and the packet if it is not encrypted. */
  function Covered(n: Note): seq<byte>
    requires CONNACK < n.t < DISCONNECT
  {
    Label(n.maker.role, n.t) + if Encrypts(n.t) then [] else n.packet
  }

  /** The receiver is open for the type and the counter of a note. */
  predicate Awaits(w: World, r: Role, n: Note) {
    Admits(r, n.t) && w.Side(r).established && n.maker.toBeSent >= w.Side(r).lastReceived
  }

  /** The label that the receiver expects occurs at `d`, and with an octet behind it unless encrypted. */
  predicate LabelAt(n: Note, r: Role, d: nat)
    requires CONNACK < n.t < DISCONNECT
  {
    OccursAt(Label(r.Peer(), n.t), Covered(n), d) && (Encrypts(n.t) || d + 10 < |Covered(n)|)
  }

  /** The frame around the box of a note with the boundary behind the header moved on by `d`. */
  function Moved(n: Note, d: nat): Frame
    requires n.frame.Control? && CONNACK < n.t < DISCONNECT && d + 10 <= |Covered(n)|
  {
    Control(n.frame.header + Covered(n)[..d], if Encrypts(n.t) then None else Some(Covered(n)[d + 10..]), n.frame.box)
  }

  lemma NoteFacts(w: World, r: Role, k: nat)
    requires Good(w) && k < |w.log|
    ensures var n := w.log[k];
            && ValidParty(n.maker) && ValidParty(w.Side(r)) && w.Side(r).role == r && Made(w, n) && n.packet != []
            && IsPublicKey(n.maker.dhPublic) && w.Side(n.maker.role).role == n.maker.role
            && if n.frame.Control? then
                 && CONNACK < n.t < DISCONNECT && n.maker.key.Some? && n.frame == Secure(n.maker, n.t, n.packet)
                 && (w.Side(r).established ==> w.Side(r).key == n.maker.key)
               else n.t == Opening(n.maker.role) && n.frame == Export(n.maker, n.packet)
  {
    hide Pack, Label, InTurn, OpenedOnce;
    assert Made(w, w.log[k]);
  }

  /** What a control frame must be to be accepted. */
  predicate Acceptable(p: Party, f: Frame)
    requires f.Control? && ValidParty(p)
  {
    && Unpack(f.header).Some?
    && var h := Unpack(f.header).value.header;
    && CONNACK < h.messageType < DISCONNECT && HeaderOk(p, h) && p.established && p.key == Some(f.box.key)
    && f.clear.None? == Decrypts(p.role, h.messageType) && f.clear != Some([])
    && f.box.aad == Aad(f.header, p.role.Peer(), h.messageType, f.clear) && (f.clear.None? ==> f.box.plain.Some?)
  }

  lemma AcceptedIff(p: Party, f: Frame)
    requires ValidParty(p) && f.Control?
    ensures Process(p, f).1.Ok? <==> Acceptable(p, f)
    ensures Acceptable(p, f) ==>
              var h := Unpack(f.header).value.header;
              && Process(p, f).0 == p.(lastReceived := h.messageId)
              && Process(p, f).1.value ==
                 Message(h.messageType, if f.clear.None? then f.box.plain.value else f.clear.value)
  {
    hide Unpack, Label;
  }

  /** In every reachable state: of all frames around a box of the session, exactly those are accepted in
    * which the boundary behind the header is moved to an occurrence of the receiver's label.  What is
    * delivered has the type that was secured; it is the packet secured if encrypted, and else the rest. */
  lemma AlteredFrame(w: World, r: Role, k: nat, header: seq<byte>, clear: Option<seq<byte>>)
    requires Good(w) && k < |w.log| && w.log[k].frame.Control?
    ensures CONNACK < w.log[k].t < DISCONNECT
    ensures var n := w.log[k];
            var f := Control(header, clear, n.frame.box);
            && (Process(w.Side(r), f).1.Ok? <==>
                  Awaits(w, r, n) && exists d :: LabelAt(n, r, d) && f == Moved(n, d))
            && (Process(w.Side(r), f).1.Ok? ==>
                  && Process(w.Side(r), f).1.value == Message(n.t, if clear.None? then n.packet else clear.value)
                  && Process(w.Side(r), f).0 == w.Side(r).(lastReceived := n.maker.toBeSent))
  {
    hide Process, Good, Label;
    var n := w.log[k];
    var f := Control(header, clear, n.frame.box);
    NoteFacts(w, r, k);
    if Process(w.Side(r), f).1.Ok? {
      AcceptedIsMoved(w, r, k, header, clear);
    }
    if d :| Awaits(w, r, n) && LabelAt(n, r, d) && f == Moved(n, d) {
      MovedIsAccepted(w, r, k, d);
    }
  }

  lemma AcceptedIsMoved(w: World, r: Role, k: nat, header: seq<byte>, clear: Option<seq<byte>>)
    requires Good(w) && k < |w.log| && w.log[k].frame.Control?
    requires Process(w.Side(r), Control(header, clear, w.log[k].frame.box)).1.Ok?
    ensures CONNACK < w.log[k].t < DISCONNECT
    ensures var n := w.log[k];
            var f := Control(header, clear, n.frame.box);
            && Awaits(w, r, n) && (exists d :: LabelAt(n, r, d) && f == Moved(n, d))
            && Process(w.Side(r), f).1.value == Message(n.t, if clear.None? then n.packet else clear.value)
            && Process(w.Side(r), f).0 == w.Side(r).(lastReceived := n.maker.toBeSent)
  {
    hide Pack, Unpack, Label, Good, Process, Made;
    var n := w.log[k];
    var p, s, f := w.Side(r), n.maker, Control(header, clear, n.frame.box);
    NoteFacts(w, r, k);
    AcceptedIff(p, f);
    var h := Header(SMP_MQTTS, 0, n.t, s.clientId, s.toBeSent);
    var tag := Label(r.Peer(), Unpack(header).value.header.messageType);
    var rest := if clear.Some? then clear.value else [];
    assert n.frame.box.aad == Pack(h) + Covered(n);
    assert n.frame.box.aad == header + (tag + rest);
    Follows(h, Covered(n), header, tag + rest);
    SameChoice(r, n.t);
    var d := |header| - |Pack(h)|;
    TagThenRest(Covered(n), d, tag, rest);
    assert LabelAt(n, r, d) && f == Moved(n, d);
  }

  lemma TagThenRest(c: seq<byte>, d: nat, tag: seq<byte>, rest: seq<byte>)
    requires d <= |c| && c[d..] == tag + rest && |tag| == 10
    ensures d + 10 <= |c| && c[d..d + 10] == tag && c[d + 10..] == rest
  {
    assert c[d..d + 10] == c[d..][..10];
    assert c[d + 10..] == c[d..][10..];
  }

  lemma MovedIsAccepted(w: World, r: Role, k: nat, d: nat)
    requires Good(w) && k < |w.log| && w.log[k].frame.Control? && CONNACK < w.log[k].t < DISCONNECT
    requires Awaits(w, r, w.log[k]) && LabelAt(w.log[k], r, d)
    ensures Process(w.Side(r), Moved(w.log[k], d)).1.Ok?
  {
    hide Pack, Unpack, Label, Good, Made, Process;
    var n := w.log[k];
    var s, f := n.maker, Moved(n, d);
    NoteFacts(w, r, k);
    AcceptedIff(w.Side(r), f);
    HeaderReads(s, n.t);
    UnpackMore(n.frame.header, Covered(n)[..d]);
    SameChoice(r, n.t);
    AuthenticatedAgain(n, r, d);
  }

  lemma AuthenticatedAgain(n: Note, r: Role, d: nat)
    requires ValidParty(n.maker) && n.maker.key.Some? && CONNACK < n.t < DISCONNECT
    requires n.frame == Secure(n.maker, n.t, n.packet) && LabelAt(n, r, d)
    ensures var f := Moved(n, d);
            f.box.aad == Aad(f.header, r.Peer(), n.t, f.clear) && f.clear != Some([])
  {
    hide Label, Pack, Encrypts;
    BoxCovers(n);
    Parts(n.frame.header, Covered(n), d);
    assert Encrypts(n.t) ==> Covered(n)[d + 10..] == [];
  }

  lemma BoxCovers(n: Note)
    requires ValidParty(n.maker) && n.maker.key.Some? && CONNACK < n.t < DISCONNECT
    requires n.frame == Secure(n.maker, n.t, n.packet)
    ensures n.frame.box.aad == n.frame.header + Covered(n)
  {
    hide Label, Pack, Encrypts;
  }

  lemma Parts(header: seq<byte>, c: seq<byte>, d: nat)
    requires d + 10 <= |c|
    ensures header + c == header + c[..d] + c[d..d + 10] + c[d + 10..]
    ensures d + 10 == |c| ==> header + c == header + c[..d] + c[d..d + 10] + []
  {
  }

  /** The receiver's label occurs again behind its place. */
  predicate LabelAgain(n: Note, r: Role)
    requires CONNACK < n.t < DISCONNECT
  {
    exists d :: 0 < d < |Covered(n)| && LabelAt(n, r, d)
  }

  /** The frame is accepted for something else than what was secured in its box. */
  predicate Confused(w: World, r: Role, n: Note, header: seq<byte>, clear: Option<seq<byte>>)
    requires n.frame.Control? && Fit(w)
  {
    var result := Process(w.Side(r), Control(header, clear, n.frame.box)).1;
    result.Ok? && !(header == n.frame.header && Genuine(n, r, result.value))
  }

  /** Integrity, exactly: some frame around a box is accepted for something else than what the other side
    * secured in that box if and only if the receiver is open for it and its label occurs again in what is
    * authenticated. */
  lemma ConfusedIff(w: World, r: Role, k: nat)
    requires Good(w) && Fit(w) && k < |w.log| && w.log[k].frame.Control?
    ensures CONNACK < w.log[k].t < DISCONNECT
    ensures (exists header, clear :: Confused(w, r, w.log[k], header, clear)) <==>
            Awaits(w, r, w.log[k]) && LabelAgain(w.log[k], r)
  {
    hide Process, Good, Label, Made;
    var n := w.log[k];
    NoteFacts(w, r, k);
    if header, clear :| Confused(w, r, n, header, clear) {
      AlteredFrame(w, r, k, header, clear);
      var d :| LabelAt(n, r, d) && Control(header, clear, n.frame.box) == Moved(n, d);
      NotMoved(n, r);
    }
    if Awaits(w, r, n) && LabelAgain(n, r) {
      var d :| 0 < d < |Covered(n)| && LabelAt(n, r, d);
      var f := Moved(n, d);
      AlteredFrame(w, r, k, f.header, f.clear);
      assert f == Control(f.header, f.clear, n.frame.box);
      assert |f.header| > |n.frame.header|;
      assert Confused(w, r, n, f.header, f.clear);
    }
  }

  lemma NotMoved(n: Note, r: Role)
    requires ValidParty(n.maker) && n.maker.key.Some? && CONNACK < n.t < DISCONNECT
    requires n.frame == Secure(n.maker, n.t, n.packet)
    ensures LabelAt(n, r, 0) ==> n.maker.role == r.Peer() && Moved(n, 0) == n.frame
  {
    hide Label, Pack;
    if LabelAt(n, r, 0) {
      assert Label(n.maker.role, n.t)[0] == Covered(n)[0] == Covered(n)[0..10][0];
      assert Covered(n)[10..] == if Encrypts(n.t) then [] else n.packet;
      assert n.frame.header + Covered(n)[..0] == n.frame.header;
    }
  }

  lemma LabelLetters(sender: Role, t: int)
    requires CONNACK <= t < DISCONNECT
    ensures forall i :: 0 <= i < 10 ==> (Label(sender, t)[i] == 0x32 <==> i == 1)  // '2'
  {
    var name := LABELS[t];
    assert t in {2, 3, 4, 5, 6, 7, 8, 9, 10, 11, 12, 13};
    assert |name| == 6 && '2' !in name;
  }

  lemma LabelAgainIsFar(n: Note, r: Role, d: nat)
    requires CONNACK < n.t < DISCONNECT && LabelAt(n, r, d)
    ensures d > 0 ==> !Encrypts(n.t) && |n.packet| >= 10
  {
    hide Label, Encrypts;
    LabelLetters(r.Peer(), n.t);
    LabelLetters(n.maker.role, n.t);
    assert Label(r.Peer(), n.t)[1] == Covered(n)[d..d + 10][1] == Covered(n)[d + 1];
    assert d < 9 ==> Label(n.maker.role, n.t)[d + 1] == 0x32;
  }

  /** Encrypted packets and packets of less than ten octets, such as all acknowledgements and pings, are
    * never accepted for something else. */
  lemma ShortNeverConfused(n: Note, r: Role)
    requires CONNACK < n.t < DISCONNECT && (Encrypts(n.t) || |n.packet| < 10)
    ensures !LabelAgain(n, r)
  {
    forall d | 0 < d < |Covered(n)| ensures !LabelAt(n, r, d) {
      if LabelAt(n, r, d) {
        LabelAgainIsFar(n, r, d);
      }
    }
  }

  /** Such packets can be sent: in every open session, of every clear type, in either direction. */
  lemma SentConfused(w: World, r: Role, t: int, x: byte)
    requires Good(w) && Fit(w) && w.Side(r).established && w.Side(r.Peer()).established
    requires Securable(r.Peer(), t) && Admits(r, t) && !Encrypts(t) && t != DISCONNECT
    requires w.Side(r.Peer()).toBeSent >= w.Side(r).lastReceived
    ensures var v := Step(w, Send(r.Peer(), t, Label(r.Peer(), t) + [x]));
            && v.log == w.log + [v.log[|w.log|]] && v.log[|w.log|].frame.Control?
            && exists header, clear :: Confused(v, r, v.log[|w.log|], header, clear)
  {
    hide Label, Good, Export, Secure, Confused, Process;
    var packet := Label(r.Peer(), t) + [x];
    var v := Step(w, Send(r.Peer(), t, packet));
    SendGood(w, r.Peer(), t, packet);
    Roles(w);
    var n := v.log[|w.log|];
    SecureIsControl(w.Side(r.Peer()), t, packet);
    assert Covered(n)[10..20] == Label(r.Peer(), t);
    assert LabelAt(n, r, 10);
    ConfusedIff(v, r, |w.log|);
  }

  lemma Roles(w: World)
    requires Good(w)
    ensures w.client.role == Client && w.broker.role == Broker
  {
  }

  lemma SecureIsControl(p: Party, t: int, packet: seq<byte>)
    requires ValidParty(p) && CONNACK < t < DISCONNECT && p.key.Some?
    ensures Secure(p, t, packet).Control?
  {
    hide Pack, Label;
  }

  // ----- opening frames -----

  /** Where the key is if the header ends at `a`: behind the cipher scheme, which only a client sends. */
  function KeyAt(r: Role, a: nat): nat {
    if r == Broker then a + 1 else a
  }

  /** With the header ending at `a`, the signed octets read as an opening for `r`. */
  predicate OpensAt(n: Note, r: Role, a: nat)
    requires n.frame.Establishment?
  {
    var s, b := n.frame.signed, KeyAt(r, a);
    && |n.frame.header| <= a && b + KEY_LENGTH < |s| && (r == Broker ==> s[a] == SCHEME)
    && IsPublicKey(s[b..b + KEY_LENGTH])
  }

  function OpeningAt(n: Note, r: Role, a: nat): Frame
    requires n.frame.Establishment? && OpensAt(n, r, a)
  {
    var s, b := n.frame.signed, KeyAt(r, a);
    Establishment(s[..a], if r == Broker then Some(SCHEME) else None, s[b..b + KEY_LENGTH], s[b + KEY_LENGTH..], s)
  }

  predicate AwaitsOpening(w: World, r: Role, n: Note) {
    n.maker.role == r.Peer() && w.Side(r).hasPrivate && n.maker.toBeSent >= w.Side(r).lastReceived
  }

  /** In every reachable state: of all opening frames with a signature of the session, exactly those are
    * accepted that read the signed octets again, with the header ending where a key follows.  The key
    * that is derived and the packet delivered are those that are read there. */
  lemma AlteredOpening(w: World, r: Role, k: nat, f: Frame)
    requires Good(w) && k < |w.log| && w.log[k].frame.Establishment?
    requires f.Establishment? && f.signed == w.log[k].frame.signed
    ensures var n := w.log[k];
            && (Process(w.Side(r), f).1.Ok? <==>
                  AwaitsOpening(w, r, n) && OpensAt(n, r, |f.header|) && f == OpeningAt(n, r, |f.header|))
            && (Process(w.Side(r), f).1.Ok? ==>
                  && Process(w.Side(r), f).1.value == Message(n.t, f.packet)
                  && Process(w.Side(r), f).0 == Establish(w.Side(r), f.dhPublic).(lastReceived := n.maker.toBeSent))
  {
    hide Process, Good, Establish;
    NoteFacts(w, r, k);
    if Process(w.Side(r), f).1.Ok? {
      AcceptedOpens(w, r, k, f);
    }
    if AwaitsOpening(w, r, w.log[k]) && OpensAt(w.log[k], r, |f.header|) && f == OpeningAt(w.log[k], r, |f.header|) {
      OpensAccepted(w, r, k, f);
    }
  }

  /** What an opening frame must be to be accepted. */
  predicate Readable(p: Party, f: Frame)
    requires f.Establishment?
  {
    && Unpack(f.header).Some?
    && var h := Unpack(f.header).value.header;
    && h.messageType == Opening(p.role.Peer()) && HeaderOk(p, h) && p.hasPrivate
    && f.scheme == (if p.role == Broker then Some(SCHEME) else None)
    && IsPublicKey(f.dhPublic) && f.packet != []
    && f.signed == SignedOctets(f.header, f.scheme, f.dhPublic, f.packet)
  }

  lemma ReadableIff(p: Party, f: Frame)
    requires ValidParty(p) && f.Establishment?
    ensures Process(p, f).1.Ok? <==> Readable(p, f)
    ensures Readable(p, f) ==>
              var h := Unpack(f.header).value.header;
              && Process(p, f).0 == Establish(p, f.dhPublic).(lastReceived := h.messageId)
              && Process(p, f).1.value == Message(h.messageType, f.packet)
  {
    hide Unpack, Establish;
    NoHeader();
  }

  lemma NoHeader()
    ensures Unpack([]).None?
  {
  }

  lemma AcceptedOpens(w: World, r: Role, k: nat, f: Frame)
    requires Good(w) && k < |w.log| && w.log[k].frame.Establishment?
    requires f.Establishment? && f.signed == w.log[k].frame.signed && Process(w.Side(r), f).1.Ok?
    ensures var n := w.log[k];
            && AwaitsOpening(w, r, n) && OpensAt(n, r, |f.header|) && f == OpeningAt(n, r, |f.header|)
            && Process(w.Side(r), f).1.value == Message(n.t, f.packet)
            && Process(w.Side(r), f).0 == Establish(w.Side(r), f.dhPublic).(lastReceived := n.maker.toBeSent)
  {
    hide Pack, Unpack, Good, Process, Made, Establish;
    NoteFacts(w, r, k);
    ReadableIff(w.Side(r), f);
    SameHeader(w.log[k].maker, w.log[k].packet, w.log[k].frame, f);
    Slices(f.header, if r == Broker then [SCHEME] else [], f.dhPublic, f.packet);
  }

  /** A readable opening with the octets of another one has the same fields in its header. */
  lemma SameHeader(s: Party, packet: seq<byte>, made: Frame, f: Frame)
    requires ValidParty(s) && made == Export(s, packet)
    requires f.Establishment? && f.signed == made.signed == SignedOctets(f.header, f.scheme, f.dhPublic, f.packet)
    requires Unpack(f.header).Some? && IsPublicKey(f.dhPublic) && (f.scheme.Some? ==> f.scheme == Some(SCHEME))
    ensures Unpack(f.header).value.header == Header(SMP_MQTTS, 0, Opening(s.role), s.clientId, s.toBeSent)
    ensures |f.header| >= |made.header|
  {
    hide Pack, Unpack;
    var h := Header(SMP_MQTTS, 0, Opening(s.role), s.clientId, s.toBeSent);
    var after := (if made.scheme.Some? then [SCHEME] else []) + s.dhPublic + packet;
    var rest := (if f.scheme.Some? then [SCHEME] else []) + f.dhPublic + f.packet;
    assert f.signed == Pack(h) + after;
    assert f.signed == f.header + rest;
    Follows(h, after, f.header, rest);
  }

  lemma Slices(header: seq<byte>, mark: seq<byte>, key: seq<byte>, packet: seq<byte>)
    ensures var s, a, b := header + (mark + key + packet), |header|, |header| + |mark|;
            && s[..a] == header && s[a..b] == mark && s[b..b + |key|] == key && s[b + |key|..] == packet
  {
  }

  lemma OpensAccepted(w: World, r: Role, k: nat, f: Frame)
    requires Good(w) && k < |w.log| && w.log[k].frame.Establishment? && AwaitsOpening(w, r, w.log[k])
    requires OpensAt(w.log[k], r, |f.header|) && f == OpeningAt(w.log[k], r, |f.header|)
    ensures Process(w.Side(r), f).1.Ok?
  {
    hide Pack, Unpack, Good, Made, Establish, Process, OpensAt;
    var n := w.log[k];
    NoteFacts(w, r, k);
    ReadableIff(w.Side(r), f);
    HeaderReads(n.maker, n.t);
    ReadAt(n, r, |f.header|);
    UnpackMore(n.frame.header, f.header[|n.frame.header|..]);
  }

  /** The parts of the signed octets when they are read with a header of length `a`. */
  lemma ReadAt(n: Note, r: Role, a: nat)
    requires n.frame.Establishment? && OpensAt(n, r, a)
    ensures var f, s, whole := OpeningAt(n, r, a), n.frame.signed, n.frame.header;
            && IsPublicKey(f.dhPublic) && f.packet != []
            && s == SignedOctets(f.header, f.scheme, f.dhPublic, f.packet)
            && |whole| <= |f.header| && (s[..|whole|] == whole ==> f.header == whole + f.header[|whole|..])
  {
    var f, s, whole := OpeningAt(n, r, a), n.frame.signed, n.frame.header;
    assert f.header[..|whole|] == s[..|whole|];
    assert s == s[..a] + s[a..];
    assert s[a..] == (if r == Broker then [SCHEME] else []) + f.dhPublic + f.packet;
  }

  /** An opening frame with the same signature is accepted. */
  predicate Reopens(w: World, r: Role, n: Note, f: Frame)
    requires n.frame.Establishment? && Fit(w)
  {
    f.Establishment? && f.signed == n.frame.signed && f != n.frame && Process(w.Side(r), f).1.Ok?
  }

  /** An opening is accepted in another form if and only if the receiver waits for it and the signed octets
    * hold, further on, what can be read as a key with a packet behind it. */
  lemma ReopensIff(w: World, r: Role, k: nat)
    requires Good(w) && Fit(w) && k < |w.log| && w.log[k].frame.Establishment?
    ensures (exists f :: Reopens(w, r, w.log[k], f)) <==>
            AwaitsOpening(w, r, w.log[k]) && exists a :: a > |w.log[k].frame.header| && OpensAt(w.log[k], r, a)
  {
    hide Process, Good, Made;
    var n := w.log[k];
    NoteFacts(w, r, k);
    if f :| Reopens(w, r, n, f) {
      AlteredOpening(w, r, k, f);
      if |f.header| == |n.frame.header| {
        OwnOpening(n, r);
      }
    }
    if AwaitsOpening(w, r, n) {
      if a :| a > |n.frame.header| && OpensAt(n, r, a) {
        var f := OpeningAt(n, r, a);
        assert |f.header| == a;
        AlteredOpening(w, r, k, f);
        assert Reopens(w, r, n, f);
      }
    }
  }

  /** Read with its own header, an opening is what was made. */
  lemma OwnOpening(n: Note, r: Role)
    requires ValidParty(n.maker) && n.maker.role == r.Peer() && IsPublicKey(n.maker.dhPublic) && n.packet != []
    requires n.frame == Export(n.maker, n.packet)
    ensures var a := |n.frame.header|; OpensAt(n, r, a) && OpeningAt(n, r, a) == n.frame
  {
    hide Pack, Unpack;
    var s, a := n.frame.signed, |n.frame.header|;
    var b := KeyAt(r, a);
    assert s[..a] == n.frame.header;
    assert s[b..b + KEY_LENGTH] == n.maker.dhPublic;
    assert s[b + KEY_LENGTH..] == n.packet;
  }
}
