/** The resumable writer: packet__queue and packet__write over a socket that may take any non-empty
  * part of what it is given, or nothing for now. */
module Writer {
  import opened Bytes
  import opened LinkedLists
  import opened Framing
  import opened Streams
  import RemainingLength

  datatype Kind = QosZero | Disconnect | Other

  /** A packet handed to packet__queue, with the bytes that are to be sent for it. */
  datatype Packet = Packet(command: byte, mid: int, bytes: seq<byte>) {
    /** A PUBLISH has QoS 0 whatever its dup and retain flags. */
    function Kind(): Kind {
      if command / 16 == 3 && command / 2 % 4 == 0 then QosZero
      else if command / 16 == 14 then Disconnect
      else Other
    }
  }

  /** A packet in the queue or being written. */
  datatype Out = Out(packet: Packet, pos: nat, toProcess: nat)

  function AllBytes(ps: seq<Packet>): seq<byte> {
    if ps == [] then [] else ps[0].bytes + AllBytes(ps[1..])
  }

  lemma {:induction false} BytesAppend(ps: seq<Packet>, qs: seq<Packet>)
    ensures AllBytes(ps + qs) == AllBytes(ps) + AllBytes(qs)
  {
    if ps == [] {
      assert ps + qs == qs;
    } else {
      assert (ps + qs)[1..] == ps[1..] + qs;
      BytesAppend(ps[1..], qs);
    }
  }

  lemma BytesOne(p: Packet)
    ensures AllBytes([p]) == p.bytes
  {
    assert AllBytes([p]) == p.bytes + AllBytes([]);
  }

  /** The identifiers that on_publish reports for completed packets. */
  function Reported(ps: seq<Packet>): seq<int> {
    if ps == [] then []
    else Reported(ps[..|ps| - 1]) + (if ps[|ps| - 1].Kind() == QosZero then [ps[|ps| - 1].mid] else [])
  }

  lemma ReportedAppend(ps: seq<Packet>, p: Packet)
    ensures Reported(ps + [p]) == Reported(ps) + (if p.Kind() == QosZero then [p.mid] else [])
  {
    assert (ps + [p])[..|ps|] == ps;
  }

  /** The bytes not yet sent. */
  function Pending(line: seq<Out>): seq<byte>
    requires forall o <- line :: o.pos <= |o.packet.bytes|
  {
    if line == [] then [] else line[0].packet.bytes[line[0].pos..] + Pending(line[1..])
  }

  // ----- the accounts that every step keeps -----

  /** `line` holds the packet being written and then the queue; the first `done` of the accepted
    * packets have been sent whole. */
  datatype Account = Account(
    broker: bool, accepted: seq<Packet>, done: nat, line: seq<Out>, sent: seq<byte>,
    reported: seq<int>, open: bool)

  function Queued(a: Account, p: Packet): Account {
    a.(accepted := a.accepted + [p], line := a.line + [Out(p, 0, |p.bytes|)])
  }

  function Written(a: Account, n: nat): Account
    requires a.line != [] && n <= a.line[0].toProcess
    requires a.line[0].pos + a.line[0].toProcess == |a.line[0].packet.bytes|
  {
    var o := a.line[0];
    a.(line := a.line[0 := o.(pos := o.pos + n, toProcess := o.toProcess - n)],
       sent := a.sent + o.packet.bytes[o.pos..o.pos + n])
  }

  function Completed(a: Account): Account
    requires a.line != []
  {
    var p := a.line[0].packet;
    a.(done := a.done + 1, line := a.line[1..],
       reported := if !a.broker && p.Kind() == QosZero then a.reported + [p.mid] else a.reported,
       open := a.open && (a.broker || p.Kind() != Disconnect))
  }

  /** The first `done` packets, then `line`, are all that was accepted; the client has reported the
    * QoS 0 PUBLISHes among those sent, and nothing was sent behind a DISCONNECT (section 3.14.4). */
  ghost predicate Balanced(a: Account) {
    && a.done + |a.line| == |a.accepted|
    && (forall i :: 0 <= i < |a.line| ==> a.line[i].packet == a.accepted[a.done + i])
    && (forall i :: 0 <= i < |a.line| ==> a.line[i].pos + a.line[i].toProcess == |a.line[i].packet.bytes|)
    && (forall i :: 0 < i < |a.line| ==> a.line[i].pos == 0)
    && a.sent == AllBytes(a.accepted[..a.done]) + (if a.line == [] then [] else a.line[0].packet.bytes[..a.line[0].pos])
    && a.reported == (if a.broker then [] else Reported(a.accepted[..a.done]))
    && forall i :: 0 <= i < a.done && a.accepted[i].Kind() == Disconnect && !a.broker ==> i == a.done - 1 && !a.open
  }

  /** Every packet has been sent at least in part or not at all, never whole. */
  ghost predicate Resting(a: Account) {
    a.line != [] ==> a.line[0].pos < |a.line[0].packet.bytes| || a.line[0].pos == 0
  }

  lemma StartBalanced(broker: bool)
    ensures Balanced(Account(broker, [], 0, [], [], [], true))
  {
  }

  lemma QueueBalanced(a: Account, p: Packet)
    requires Balanced(a)
    ensures Balanced(Queued(a, p))
  {
    hide AllBytes, Reported, Packet.Kind;
    assert (a.accepted + [p])[..a.done] == a.accepted[..a.done];
  }

  lemma QueueRests(a: Account, p: Packet)
    requires Resting(a)
    ensures Resting(Queued(a, p))
  {
  }

  lemma LineBalanced(a: Account)
    requires Balanced(a)
    ensures a.line != [] ==> a.line[0].pos + a.line[0].toProcess == |a.line[0].packet.bytes|
    ensures a.line == [] ==> a.sent == AllBytes(a.accepted)
    ensures |a.line| > 1 ==> a.line[1].pos == 0
    ensures a.done <= |a.accepted|
  {
    if a.line == [] {
      assert a.accepted[..a.done] == a.accepted;
    }
  }

  lemma WriteBalanced(a: Account, n: nat)
    requires Balanced(a) && a.line != [] && n <= a.line[0].toProcess
    ensures a.line[0].pos + a.line[0].toProcess == |a.line[0].packet.bytes| && Balanced(Written(a, n))
  {
    hide AllBytes, Reported, Packet.Kind;
    var o, whole := a.line[0], AllBytes(a.accepted[..a.done]);
    var was, more := o.packet.bytes[..o.pos], o.packet.bytes[o.pos..o.pos + n];
    assert was + more == o.packet.bytes[..o.pos + n];
    assert whole + was + more == whole + (was + more);
  }

  lemma CompletedFacts(a: Account)
    requires a.line != []
    ensures Completed(a).done == a.done + 1 && |Completed(a).line| == |a.line| - 1
    ensures var kind := a.line[0].packet.Kind();
            Completed(a) ==
            a.(done := a.done + 1, line := a.line[1..],
               reported := if !a.broker && kind == QosZero then a.reported + [a.line[0].packet.mid] else a.reported,
               open := a.open && (a.broker || kind != Disconnect))
  {
  }

  lemma CompleteBalanced(a: Account)
    requires Balanced(a) && a.open && a.line != [] && a.line[0].toProcess == 0
    ensures Balanced(Completed(a)) && Resting(Completed(a))
  {
    hide AllBytes, Reported, Packet.Kind;
    var p, was := a.line[0].packet, a.accepted[..a.done];
    assert a.accepted[..a.done + 1] == was + [p];
    assert a.sent == AllBytes(was + [p]) by {
      BytesAppend(was, [p]);
      BytesOne(p);
      assert p.bytes[..a.line[0].pos] == p.bytes;
    }
    ReportedAppend(was, p);
    NothingMore(a.sent);
  }

  lemma NothingMore(s: seq<byte>)
    ensures s + [] == s
  {
  }

  /** Nothing is lost, doubled or reordered: sent, then what is still pending, is all that was accepted. */
  lemma Conserved(a: Account)
    requires Balanced(a)
    ensures a.sent + Pending(a.line) == AllBytes(a.accepted)
  {
    hide Reported, Packet.Kind;
    var whole, rest := a.accepted[..a.done], a.accepted[a.done..];
    assert whole + rest == a.accepted;
    BytesAppend(whole, rest);
    if a.line != [] {
      hide AllBytes, Pending;
      var p, pos := a.line[0].packet, a.line[0].pos;
      PendingIsBytes(a.line[1..], rest[1..]);
      FirstOf(a.line, rest);
      CutAnywhere(AllBytes(whole), p.bytes, pos, Pending(a.line[1..]));
    }
  }

  lemma CutAnywhere(before: seq<byte>, bytes: seq<byte>, pos: nat, rest: seq<byte>)
    requires pos <= |bytes|
    ensures (before + bytes[..pos]) + (bytes[pos..] + rest) == before + (bytes + rest)
  {
  }

  lemma FirstOf(line: seq<Out>, ps: seq<Packet>)
    requires line != [] && ps != [] && forall o <- line :: o.pos <= |o.packet.bytes|
    ensures Pending(line) == line[0].packet.bytes[line[0].pos..] + Pending(line[1..])
    ensures AllBytes(ps) == ps[0].bytes + AllBytes(ps[1..])
  {
  }

  lemma {:induction false} PendingIsBytes(line: seq<Out>, ps: seq<Packet>)
    requires |line| == |ps| && forall i :: 0 <= i < |line| ==> line[i].packet == ps[i] && line[i].pos == 0
    ensures Pending(line) == AllBytes(ps)
  {
    if line != [] {
      PendingIsBytes(line[1..], ps[1..]);
    }
  }

  /** What the peer's reader makes of the bytes sent so far, however the network cuts them: exactly
    * the packets that have been sent whole, in the order in which they were queued. */
  lemma PeerSeesDone(a: Account, plain: bool, frames: seq<Frame>, pieces: seq<seq<byte>>)
    requires Balanced(a) && Resting(a)
    requires |frames| == |a.accepted|
    requires forall i :: 0 <= i < |frames| ==> Fits(plain, frames[i]) && a.accepted[i].bytes == Wire(plain, frames[i])
    requires Concat(pieces) == a.sent
    ensures var r := Calls(Start(plain, []), pieces); r.frames == frames[..a.done] && !r.failed
  {
    hide Fits, Wire;
    var part := if a.line == [] then [] else a.line[0].packet.bytes[..a.line[0].pos];
    BytesIsStream(a.accepted[..a.done], plain, frames[..a.done]);
    assert Front(plain, part) by {
      if part != [] {
        assert part == Wire(plain, frames[a.done])[..|part|];
      }
    }
    StreamThroughSocket(plain, frames[..a.done], part, pieces);
  }

  lemma {:induction false} BytesIsStream(ps: seq<Packet>, plain: bool, frames: seq<Frame>)
    requires |ps| == |frames| && forall i :: 0 <= i < |ps| ==> ps[i].bytes == Wire(plain, frames[i])
    ensures AllBytes(ps) == Stream(plain, frames)
  {
    if ps != [] {
      BytesIsStream(ps[1..], plain, frames[1..]);
    }
  }

  // ----- the socket -----

  type pos = n: nat | n > 0 witness 1

  /** What the socket answers to a write: it takes up to `n` octets, or would block, or fails. */
  datatype Answer = Takes(n: pos) | Blocks | Resets | Fails

  function Min(a: nat, b: nat): nat {
    if a <= b then a else b
  }

  /** The outcome of a call: the account, the answers that are left, and the return code. */
  datatype Driven = Driven(account: Account, answers: seq<Answer>, rc: Rc)

  ghost predicate Lined(a: Account) {
    forall i :: 0 <= i < |a.line| ==> a.line[i].pos + a.line[i].toProcess == |a.line[i].packet.bytes|
  }

  /** What the answers of the socket make of a connection: packets are written in order, until none is left,
    * the connection is closed, or the socket does not take anything.  A socket with no more answers blocks. */
  ghost function Drive(a: Account, answers: seq<Answer>): (r: Driven)
    requires Lined(a)
    decreases |a.line|, if a.line == [] then 0 else a.line[0].toProcess
  {
    if a.line == [] || !a.open then Driven(a, answers, Success)
    else if a.line[0].toProcess == 0 then Drive(Completed(a), answers)
    else if answers == [] then Driven(a, [], Success)
    else
      match answers[0]
      case Takes(n) => Drive(Written(a, Min(n, a.line[0].toProcess)), answers[1..])
      case Blocks => Driven(a, answers[1..], Success)
      case Resets => Driven(a, answers[1..], ConnLost)
      case Fails => Driven(a, answers[1..], Errno)
  }

  lemma BalancedLined(a: Account)
    requires Balanced(a)
    ensures Lined(a)
  {
    hide AllBytes, Reported, Packet.Kind;
  }

  /** How many answers at the beginning take something. */
  function Taking(answers: seq<Answer>): (n: nat)
    ensures n <= |answers| && forall i :: 0 <= i < n ==> answers[i].Takes?
    ensures n < |answers| ==> !answers[n].Takes?
  {
    if answers != [] && answers[0].Takes? then 1 + Taking(answers[1..]) else 0
  }

  /** Nothing is left to write, or a DISCONNECT has closed the connection. */
  predicate Finished(a: Account) {
    a.line == [] || !a.open
  }

  /** Whatever the socket answers: what goes out is a front part of what was pending, in order, and
    * accepted packets are not touched. */
  lemma {:induction false} DriveBalanced(a: Account, answers: seq<Answer>)
    requires Balanced(a) && Lined(a) && a.open
    ensures var r := Drive(a, answers).account;
            && Balanced(r) && r.accepted == a.accepted && r.broker == a.broker && a.done <= r.done
            && a.sent <= r.sent <= AllBytes(a.accepted)
            && r.done <= |a.accepted|
            && (!r.open ==> !a.broker && r.done > 0 && r.accepted[r.done - 1].Kind() == Disconnect)
    decreases |a.line|, if a.line == [] then 0 else a.line[0].toProcess
  {
    hide AllBytes, Reported, Packet.Kind, Pending, Balanced;
    SentIsFront(a);
    LineBalanced(a);
    if !Finished(a) {
      if a.line[0].toProcess == 0 {
        CompleteStep(a);
        if a.broker || a.line[0].packet.Kind() != Disconnect {
          DriveBalanced(Completed(a), answers);
        } else {
          SentIsFront(Completed(a));
          LineBalanced(Completed(a));
        }
      } else if answers != [] && answers[0].Takes? {
        var n := Min(answers[0].n, a.line[0].toProcess);
        WriteBalanced(a, n);
        BalancedLined(Written(a, n));
        DriveBalanced(Written(a, n), answers[1..]);
      }
    }
  }

  lemma SentIsFront(a: Account)
    requires Balanced(a)
    ensures a.sent <= AllBytes(a.accepted)
  {
    hide Balanced, AllBytes, Pending;
    Conserved(a);
  }

  lemma CompleteStep(a: Account)
    requires Balanced(a) && a.open && a.line != [] && a.line[0].toProcess == 0
    ensures Balanced(Completed(a)) && Lined(Completed(a)) && Resting(Completed(a))
    ensures var p := a.line[0].packet;
            && Completed(a).open == (a.broker || p.Kind() != Disconnect)
            && a.done < |a.accepted| && a.accepted[a.done] == p
  {
    hide AllBytes, Reported, Packet.Kind;
    CompleteBalanced(a);
    BalancedLined(Completed(a));
  }

  /** The call ends with nothing left to write, or at the first answer that does not take anything, which it
    * consumes and which decides the return code, or when the answers run out. */
  lemma {:induction false} DriveStops(a: Account, answers: seq<Answer>)
    requires Lined(a)
    ensures var r, n := Drive(a, answers), Taking(answers);
            if Finished(r.account) then
              r.rc == Success && exists k :: 0 <= k <= n && r.answers == answers[k..]
            else
              && (r.account.line[0].toProcess > 0)
              && (if n == |answers| then r.answers == [] && r.rc == Success
                  else
                    && r.answers == answers[n + 1..]
                    && r.rc == if answers[n].Blocks? then Success else if answers[n].Resets? then ConnLost else Errno)
    decreases |a.line|, if a.line == [] then 0 else a.line[0].toProcess
  {
    if Finished(a) {
      assert answers[0..] == answers;
    } else if a.line[0].toProcess == 0 {
      DriveStops(Completed(a), answers);
    } else if answers != [] && answers[0].Takes? {
      var b := Written(a, Min(answers[0].n, a.line[0].toProcess));
      var r, rest := Drive(b, answers[1..]), answers[1..];
      DriveStops(b, rest);
      if Finished(r.account) {
        var k :| 0 <= k <= Taking(rest) && r.answers == rest[k..];
        assert answers[k + 1..] == rest[k..];
      }
    }
  }

  /** Every answer that takes something takes an octet at least: as many of them as octets are pending are
    * enough to finish. */
  lemma {:induction false} DriveFinishes(a: Account, answers: seq<Answer>)
    requires Lined(a) && Taking(answers) >= |Pending(a.line)|
    ensures Finished(Drive(a, answers).account)
    decreases |a.line|, if a.line == [] then 0 else a.line[0].toProcess
  {
    if !Finished(a) {
      if a.line[0].toProcess == 0 {
        DriveFinishes(Completed(a), answers);
      } else {
        var n := Min(answers[0].n, a.line[0].toProcess);
        var b := Written(a, n);
        assert b.line[1..] == a.line[1..];
        DriveFinishes(b, answers[1..]);
      }
    }
  }

  /** A socket that takes whatever it is given needs one answer for each packet. */
  lemma {:induction false} DriveWhole(a: Account, answers: seq<Answer>)
    requires Lined(a) && Taking(answers) >= |a.line|
    requires forall i, k :: 0 <= i < |a.line| && 0 <= k < Taking(answers) ==> answers[k].n >= a.line[i].toProcess
    ensures Finished(Drive(a, answers).account)
    decreases |a.line|, if a.line == [] then 0 else a.line[0].toProcess
  {
    if !Finished(a) {
      if a.line[0].toProcess == 0 {
        DriveWhole(Completed(a), answers);
      } else {
        var b := Written(a, a.line[0].toProcess);
        assert Min(answers[0].n, a.line[0].toProcess) == a.line[0].toProcess;
        assert answers[1..][..Taking(answers) - 1] == answers[1..Taking(answers)];
        OneWritten(b, answers[1..], a);
        if !Finished(b) {
          assert forall k :: 0 <= k < Taking(answers[1..]) ==> answers[1..][k] == answers[k + 1];
          DriveWhole(Completed(b), answers[1..]);
        }
      }
    }
  }

  lemma OneWritten(b: Account, answers: seq<Answer>, a: Account)
    requires Lined(a) && a.line != [] && b == Written(a, a.line[0].toProcess)
    ensures Lined(b) && b.line != [] && b.line[0].toProcess == 0 && b.line[1..] == a.line[1..]
  {
  }

  /** So a finished call has sent everything accepted, up to a client's DISCONNECT. */
  lemma FinishedSends(a: Account, answers: seq<Answer>)
    requires Balanced(a) && Lined(a) && a.open && Finished(Drive(a, answers).account)
    ensures var r := Drive(a, answers).account;
            if r.open then r.sent == AllBytes(a.accepted)
            else
              && 0 < r.done <= |a.accepted| && a.accepted[r.done - 1].Kind() == Disconnect
              && r.sent == AllBytes(a.accepted[..r.done])
  {
    hide AllBytes, Reported, Packet.Kind, Balanced;
    var r := Drive(a, answers).account;
    DriveBalanced(a, answers);
    if r.open {
      LineBalanced(r);
    } else {
      ClosedSends(a, answers);
    }
  }

  lemma {:induction false} ClosedSends(a: Account, answers: seq<Answer>)
    requires Balanced(a) && Lined(a) && a.open && !Drive(a, answers).account.open
    ensures var r := Drive(a, answers).account; r.done <= |r.accepted| && r.sent == AllBytes(r.accepted[..r.done])
    decreases |a.line|, if a.line == [] then 0 else a.line[0].toProcess
  {
    hide AllBytes, Reported, Packet.Kind, Balanced;
    if !Finished(a) {
      if a.line[0].toProcess == 0 {
        CompleteStep(a);
        if Completed(a).open {
          ClosedSends(Completed(a), answers);
        } else {
          CompletedSends(a);
        }
      } else {
        var n := Min(answers[0].n, a.line[0].toProcess);
        WriteBalanced(a, n);
        BalancedLined(Written(a, n));
        ClosedSends(Written(a, n), answers[1..]);
      }
    }
  }

  lemma CompletedSends(a: Account)
    requires Balanced(a) && a.open && a.line != [] && a.line[0].toProcess == 0
    ensures var r := Completed(a); r.done <= |r.accepted| && r.sent == AllBytes(r.accepted[..r.done])
  {
    hide AllBytes, Reported, Packet.Kind;
    CompleteBalanced(a);
    var r := Completed(a);
    SentWhole(a);
  }

  lemma SentWhole(a: Account)
    requires Balanced(a) && a.line != [] && a.line[0].toProcess == 0
    ensures a.done < |a.accepted| && a.sent == AllBytes(a.accepted[..a.done + 1])
  {
    hide Reported, Packet.Kind, AllBytes;
    var p, was := a.line[0].packet, a.accepted[..a.done];
    assert a.accepted[..a.done + 1] == was + [p];
    BytesAppend(was, [p]);
    BytesOne(p);
    assert p.bytes[..a.line[0].pos] == p.bytes;
  }

  // ----- the code -----

  datatype NetWrite = Wrote(n: nat) | Again | Reset | Failed

  /** The sending side of a connection, with the answers it is going to give. */
  class Net {
    var answers: seq<Answer>
    ghost var sent: seq<byte>

    constructor (answers: seq<Answer>)
      ensures this.answers == answers && sent == []
    {
      this.answers, sent := answers, [];
    }

    /** net__write. */
    method Write(bytes: seq<byte>) returns (r: NetWrite)
      requires bytes != []
      modifies this
      ensures if old(answers) == [] then r == Again && answers == [] && sent == old(sent)
              else
                && answers == old(answers)[1..]
                && match old(answers)[0]
                   case Takes(n) => r == Wrote(Min(n, |bytes|)) && sent == old(sent) + bytes[..r.n]
                   case Blocks => r == Again && sent == old(sent)
                   case Resets => r == Reset && sent == old(sent)
                   case Fails => r == Failed && sent == old(sent)
    {
      if answers == [] {
        return Again;
      }
      var answer := answers[0];
      answers := answers[1..];
      match answer {
        case Takes(n) =>
          var k := if n < |bytes| then n else |bytes|;
          sent := sent + bytes[..k];
          return Wrote(k);
        case Blocks => return Again;
        case Resets => return Reset;
        case Fails => return Failed;
      }
    }
  }

  lemma FrontOfPart(bytes: seq<byte>, pos: nat, count: nat, n: nat)
    requires pos + count <= |bytes| && n <= count
    ensures bytes[pos..pos + count][..n] == bytes[pos..pos + n]
  {
  }

  /** One write of the inner loop. */
  lemma DriveTurn(a: Account, answers: seq<Answer>)
    requires Lined(a) && a.line != [] && a.open && a.line[0].toProcess > 0
    ensures Drive(a, answers) ==
            if answers == [] then Driven(a, [], Success)
            else
              match answers[0]
              case Takes(n) =>
                var b := Written(a, Min(n, a.line[0].toProcess));
                if Lined(b) then Drive(b, answers[1..]) else Driven(a, answers, Success)
              case Blocks => Driven(a, answers[1..], Success)
              case Resets => Driven(a, answers[1..], ConnLost)
              case Fails => Driven(a, answers[1..], Errno)
  {
  }

  /** The packet being written is complete. */
  lemma DriveWritten(a: Account, answers: seq<Answer>)
    requires Balanced(a) && a.open && a.line != [] && a.line[0].toProcess == 0
    ensures Lined(a) && Lined(Completed(a)) && Drive(a, answers) == Drive(Completed(a), answers)
  {
    hide Completed, Packet.Kind, AllBytes, Reported;
    BalancedLined(a);
    CompleteStep(a);
    DriveFirst(a, answers);
  }

  lemma DriveFirst(a: Account, answers: seq<Answer>)
    requires Lined(a) && a.open && a.line != [] && a.line[0].toProcess == 0
    ensures Lined(Completed(a)) && Drive(a, answers) == Drive(Completed(a), answers)
  {
  }

  lemma DriveDone(a: Account, answers: seq<Answer>)
    requires Lined(a)
    ensures Finished(a) ==> Drive(a, answers) == Driven(a, answers, Success)
  {
  }

  class Writer {
    const net: Net
    const broker: bool
    const smp: bool
    const queue: LinkedList<Out>   // out_packet, out_packet_last
    var current: Node?<Out>        // current_out_packet
    var open: bool                 // sock is valid
    var reported: seq<int>         // calls of on_publish
    ghost var accepted: seq<Packet>
    ghost var done: nat
    ghost var line: seq<Out>

    /** `line` is the packet being written, then the queue. */
    ghost predicate Linked()
      reads this, current, queue, queue.nodes
    {
      && queue.Valid() && (current != null ==> current !in queue.nodes)
      && line == (if current == null then [] else [current.data]) + queue.Contents()
    }

    ghost function Abs(): Account
      reads this, net
    {
      Account(broker, accepted, done, line, net.sent, reported, open)
    }

    ghost predicate Valid()
      reads this, current, net, queue, queue.nodes
    {
      Linked() && Balanced(Abs()) && Resting(Abs())
    }

    constructor (net: Net, broker: bool, smp: bool)
      requires net.sent == []
      ensures Valid() && accepted == [] && open
      ensures this.net == net && this.broker == broker && this.smp == smp
      ensures fresh(queue)
    {
      hide Reported, AllBytes;
      this.net, this.broker, this.smp := net, broker, smp;
      queue := new LinkedList();
      current, open, reported, accepted, done, line := null, true, [], [], 0, [];
      new;
      StartBalanced(broker);
    }

    /** Make the first packet of the queue the current one; `line` is then the former queue. */
    method TakeNext()
      requires Linked()
      modifies this`current, this`line, queue, queue.nodes
      ensures Linked() && line == old(queue.Contents())
      ensures if current == null then line == [] else current in old(queue.nodes)
      ensures forall k :: 0 <= k < |queue.nodes| ==> queue.nodes[k] in old(queue.nodes)
    {
      hide LinkedList.Contents, LinkedList.Linked, LinkedList.Valid;
      current := queue.head;
      line := queue.Contents();
      queue.Head();
      if current != null {
        queue.Links(0);
        queue.Unlink(null, current, 0);
        assert line == [line[0]] + line[1..];
      }
    }

    /** One write of the inner loop of packet__write. */
    method WriteSome() returns (rc: Rc, wrote: bool)
      requires Linked() && Balanced(Abs()) && current != null && open && current.data.toProcess > 0
      modifies net, current, this`line
      ensures Linked() && Balanced(Abs()) && |line| == old(|line|)
      ensures current.data.packet == old(current.data.packet)
      ensures old(Lined(Abs())) && Lined(Abs())
      ensures if wrote then
                && current.data.toProcess < old(current.data.toProcess)
                && Drive(Abs(), net.answers) == old(Drive(Abs(), net.answers))
              else
                Resting(Abs()) && rc != NoConn && Driven(Abs(), net.answers, rc) == old(Drive(Abs(), net.answers))
    {
      hide Balanced, LinkedList.Contents, LinkedList.Valid, LinkedList.Linked, Drive, AllBytes, Reported, Lined;
      var packet, o := current, current.data;
      ghost var was := Abs();
      BalancedLined(was);
      LineBalanced(was);
      DriveTurn(was, net.answers);
      var r := net.Write(o.packet.bytes[o.pos..o.pos + o.toProcess]);
      if !r.Wrote? {
        return if r.Again? then Success else if r.Reset? then ConnLost else Errno, false;
      }
      WriteBalanced(was, r.n);
      FrontOfPart(o.packet.bytes, o.pos, o.toProcess, r.n);
      packet.data := o.(pos := o.pos + r.n, toProcess := o.toProcess - r.n);
      line := line[0 := packet.data];
      assert Abs() == Written(was, r.n);
      BalancedLined(Abs());
      return Success, true;
    }

    /** The inner loop of packet__write. */
    method WriteCurrent() returns (rc: Rc, whole: bool)
      requires Linked() && Balanced(Abs()) && current != null && open
      modifies net, current, this`line
      ensures Linked() && Balanced(Abs()) && |line| == old(|line|)
      ensures current.data.packet == old(current.data.packet)
      ensures whole ==> rc == Success && current.data.toProcess == 0
      ensures !whole ==> Resting(Abs()) && rc != NoConn
      ensures old(Lined(Abs())) && Lined(Abs())
      ensures whole ==> Drive(Abs(), net.answers) == old(Drive(Abs(), net.answers))
      ensures !whole ==> Driven(Abs(), net.answers, rc) == old(Drive(Abs(), net.answers))
    {
      hide Balanced, Writer.Linked, Lined, Drive, Resting;
      BalancedLined(Abs());
      ghost var goal := Drive(Abs(), net.answers);
      while current.data.toProcess > 0
        invariant Linked() && Balanced(Abs()) && |line| == old(|line|)
        invariant current.data.packet == old(current.data.packet)
        invariant Lined(Abs()) && Drive(Abs(), net.answers) == goal
        decreases current.data.toProcess
      {
        var wrote;
        rc, wrote := WriteSome();
        if !wrote {
          return rc, false;
        }
      }
      return Success, true;
    }

    /** The current packet has been sent whole: report it and go on to the next one. */
    method Complete()
      requires Linked() && Balanced(Abs()) && current != null && current.data.toProcess == 0 && open
      modifies this`current, this`open, this`reported, this`done, this`line, queue, queue.nodes
      ensures Valid() && Abs() == Completed(old(Abs()))
      ensures if current == null then line == [] else current in old(queue.nodes)
      ensures forall k :: 0 <= k < |queue.nodes| ==> queue.nodes[k] in old(queue.nodes)
    {
      hide Balanced, Resting, Completed, Packet.Kind, AllBytes, Reported;
      hide LinkedList.Contents, LinkedList.Linked, LinkedList.Valid;
      CompleteBalanced(Abs());
      CompletedFacts(Abs());
      assert line[1..] == queue.Contents();
      var packet := current.data.packet;
      if !broker {
        if packet.Kind() == QosZero {
          reported := reported + [packet.mid];
        } else if packet.Kind() == Disconnect {
          open := false;
        }
      }
      TakeNext();
      done := done + 1;
      assert Abs() == Completed(old(Abs()));
    }

    /** One turn of the outer loop of packet__write. */
    method WriteOne() returns (rc: Rc, more: bool)
      requires Valid() && current != null && open
      modifies this`current, this`open, this`reported, this`done, this`line, net, current, queue, queue.nodes
      ensures Valid() && rc != NoConn
      ensures more ==> open && rc == Success && |line| < old(|line|) && (current == null ==> line == [])
      ensures !more && open ==> current != null
      ensures done >= old(done)
      ensures current == old(current) || current == null || current in old(queue.nodes)
      ensures forall k :: 0 <= k < |queue.nodes| ==> queue.nodes[k] in old(queue.nodes)
      ensures old(Lined(Abs())) && Lined(Abs())
      ensures more ==> Drive(Abs(), net.answers) == old(Drive(Abs(), net.answers))
      ensures !more ==> Driven(Abs(), net.answers, rc) == old(Drive(Abs(), net.answers))
    {
      hide Balanced, Resting, Completed, LinkedList.Contents, LinkedList.Valid, Lined, Drive;
      rc, more := WriteCurrent();
      if more {
        CompletedFacts(Abs());
        DriveWritten(Abs(), net.answers);
        Complete();
        BalancedLined(Abs());
        DriveDone(Abs(), net.answers);
        more := open;
      }
    }

    /** The outer loop of packet__write. */
    method WriteAll() returns (rc: Rc)
      requires Valid() && open && (current == null ==> line == [])
      modifies this`current, this`open, this`reported, this`done, this`line, net, current, queue, queue.nodes
      ensures Valid() && done >= old(done) && rc != NoConn
      ensures rc == Success && open && current == null ==> net.sent == AllBytes(accepted)
      ensures old(Lined(Abs())) && Driven(Abs(), net.answers, rc) == old(Drive(Abs(), net.answers))
    {
      hide Balanced, Resting, LinkedList.Contents, LinkedList.Valid, Lined, Drive, AllBytes;
      BalancedLined(Abs());
      ghost var goal := Drive(Abs(), net.answers);
      ghost var mine: set<Node<Out>> := (set n | n in queue.nodes) + (if current == null then {} else {current});
      rc := Success;
      var more := true;
      while current != null && more
        invariant Valid() && rc != NoConn && done >= old(done)
        invariant current == null || current in mine
        invariant forall k :: 0 <= k < |queue.nodes| ==> queue.nodes[k] in mine
        invariant more ==> open && rc == Success && (current == null ==> line == [])
        invariant !more && open ==> current != null
        invariant Lined(Abs())
        invariant goal == if more then Drive(Abs(), net.answers) else Driven(Abs(), net.answers, rc)
        decreases if more then |line| + 1 else 0
      {
        rc, more := WriteOne();
      }
      DriveDone(Abs(), net.answers);
      LineBalanced(Abs());
    }

    /** The first part of packet__write: without a current packet, take the next one. */
    method Begin()
      requires Valid()
      modifies this`current, this`line, queue, queue.nodes
      ensures Valid() && Abs() == old(Abs()) && (current == null ==> line == [])
      ensures current == old(current) || current == null || current in old(queue.nodes)
      ensures forall k :: 0 <= k < |queue.nodes| ==> queue.nodes[k] in old(queue.nodes)
    {
      hide Balanced, Resting, LinkedList.Contents, LinkedList.Valid;
      queue.Head();
      if queue.head != null && current == null {
        assert line == queue.Contents();
        TakeNext();
      }
    }

    /** packet__write; `pending` says that the connection is still being made.  The outcome is the one that
      * the answers of the socket lead to. */
    method PacketWrite(pending: bool) returns (rc: Rc)
      requires Valid()
      modifies this`current, this`open, this`reported, this`done, this`line, net, current, queue, queue.nodes
      ensures Valid() && done >= old(done)
      ensures rc == NoConn <==> !old(open)
      ensures !old(open) || pending ==> Abs() == old(Abs()) && net.answers == old(net.answers)
      ensures old(open) && pending ==> rc == Success
      ensures rc == Success && open && !pending && current == null ==> net.sent == AllBytes(accepted)
      ensures old(Lined(Abs()))
      ensures old(open) && !pending ==> Driven(Abs(), net.answers, rc) == old(Drive(Abs(), net.answers))
    {
      hide Balanced, Resting, LinkedList.Contents, LinkedList.Valid, Lined, Drive, AllBytes;
      BalancedLined(Abs());
      if !open {
        return NoConn;
      }
      Begin();
      if pending {
        return Success;
      }
      rc := WriteAll();
    }

    /** The bytes to send: the packet itself, or with SMP the outer frame of mosq_wclSmpGetMessage
      * around `message`, what wclSmpGetMessage makes of the packet, None if it fails. */
    method Secured(payload: seq<byte>, message: Option<seq<byte>>) returns (ok: bool, bytes: seq<byte>)
      requires message.Some? ==> |message.value| < 0x1_0000_0000
      ensures ok == (!smp || (message.Some? && |message.value| < RemainingLength.LIMIT))
      ensures ok ==> bytes == if smp then Wire(false, Frame(0, message.value)) else payload
    {
      if !smp {
        return true, payload;
      }
      if message.None? {
        return false, [];
      }
      var digits := RemainingLength.EncodeLoop(|message.value|);
      return |digits| != 5, digits + message.value;
    }

    /** Link a packet behind the tail. */
    method Enqueue(packet: Packet)
      requires Valid()
      modifies this`accepted, this`line, queue, queue.nodes
      ensures Valid() && Abs() == Queued(old(Abs()), packet)
      ensures forall k :: 0 <= k < |queue.nodes| ==> queue.nodes[k] in old(queue.nodes) || fresh(queue.nodes[k])
    {
      hide Balanced, Resting, LinkedList.Contents, LinkedList.Valid;
      ghost var was := Abs();
      QueueBalanced(was, packet);
      QueueRests(was, packet);
      var n := new Node(Out(packet, 0, |packet.bytes|));
      queue.Append(n);
      accepted, line := accepted + [packet], line + [n.data];
      assert Abs() == Queued(was, packet);
    }

    /** packet__queue; `direct` is false while a callback runs or another thread does the writing. */
    method PacketQueue(command: byte, mid: int, payload: seq<byte>, message: Option<seq<byte>>,
                       direct: bool, pending: bool)
      returns (rc: Rc)
      requires Valid() && (message.Some? ==> |message.value| < 0x1_0000_0000)
      modifies this, net, current, queue, queue.nodes
      ensures Valid() && done >= old(done)
      ensures smp && (message.None? || |message.value| >= RemainingLength.LIMIT)
          ==> rc == Unknown && Abs() == old(Abs())
      ensures !smp || (message.Some? && |message.value| < RemainingLength.LIMIT) ==>
                var bytes := if smp then Wire(false, Frame(0, message.value)) else payload;
                accepted == old(accepted) + [Packet(command, mid, bytes)]
      ensures !smp || (message.Some? && |message.value| < RemainingLength.LIMIT) ==>
                var bytes := if smp then Wire(false, Frame(0, message.value)) else payload;
                var now := Queued(old(Abs()), Packet(command, mid, bytes));
                && Lined(now)
                && if !broker && !direct then Driven(Abs(), net.answers, rc) == Driven(now, old(net.answers), Success)
                   else if !old(open) then Driven(Abs(), net.answers, rc) == Driven(now, old(net.answers), NoConn)
                   else if pending then Driven(Abs(), net.answers, rc) == Driven(now, old(net.answers), Success)
                   else Driven(Abs(), net.answers, rc) == Drive(now, old(net.answers))
    {
      hide Balanced, Resting, Wire, LinkedList.Contents, LinkedList.Valid, Lined, Drive, AllBytes;
      var ok, bytes := Secured(payload, message);
      if !ok {
        return Unknown;
      }
      Enqueue(Packet(command, mid, bytes));
      BalancedLined(Abs());
      rc := Success;
      if broker || direct {
        rc := PacketWrite(pending);
      }
    }
  }
}
