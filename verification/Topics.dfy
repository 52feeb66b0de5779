/** Topic names and topic filters: the checks and the one-pass matcher of util_mosq.c
  * against the level-by-level definition in section 4.7 of MQTT 3.1.1.
  * A C string is the sequence of its octets before the terminator. */
module Topics {
  import opened Bytes

  const HASH: byte := 0x23    // '#'
  const DOLLAR: byte := 0x24  // '$'
  const PLUS: byte := 0x2B    // '+'
  const SLASH: byte := 0x2F   // '/'

  /** Octet `i` of a NUL-terminated string. */
  function At(s: seq<byte>, i: nat): byte
    requires i <= |s|
  {
    if i < |s| then s[i] else 0
  }

  // ----- topic levels -----

  /** The levels of a topic: its pieces between separators, empty pieces included. */
  function Levels(s: seq<byte>): (ls: seq<seq<byte>>)
    ensures |ls| >= 1
  {
    if s == [] then [[]]
    else
      var rest := Levels(s[1..]);
      if s[0] == SLASH then [[]] + rest else [[s[0]] + rest[0]] + rest[1..]
  }

  function Join(ls: seq<seq<byte>>): seq<byte>
  {
    if ls == [] then []
    else if |ls| == 1 then ls[0]
    else ls[0] + [SLASH] + Join(ls[1..])
  }

  /** Splitting loses nothing and leaves no separator inside a level. */
  lemma {:induction false} LevelsJoin(s: seq<byte>)
    ensures Join(Levels(s)) == s
    ensures forall i :: 0 <= i < |Levels(s)| ==> SLASH !in Levels(s)[i]
  {
    if s != [] {
      LevelsJoin(s[1..]);
      var rest := Levels(s[1..]);
      if s[0] == SLASH {
        assert Levels(s)[1..] == rest;
        assert s == [SLASH] + s[1..];
      } else {
        assert Levels(s)[1..] == rest[1..];
        assert s == [s[0]] + s[1..];
        if |rest| > 1 {
          assert Join(Levels(s)) == ([s[0]] + rest[0]) + [SLASH] + Join(rest[1..]);
        }
      }
    }
  }

  /** A separator-free prefix that ends at a separator or at the end is the first level. */
  lemma {:induction false} FirstLevel(s: seq<byte>, n: nat)
    requires n <= |s| && SLASH !in s[..n]
    requires n < |s| ==> s[n] == SLASH
    ensures Levels(s) == [s[..n]] + (if n < |s| then Levels(s[n + 1..]) else [])
  {
    if n > 0 {
      assert s[1..][..n - 1] == s[..n][1..];
      FirstLevel(s[1..], n - 1);
      assert s[..n] == [s[0]] + s[1..][..n - 1];
      assert n < |s| ==> s[1..][n..] == s[n + 1..];
    }
  }

  datatype Token = Empty | Token(text: seq<byte>)

  function TokenOf(level: seq<byte>): Token {
    if level == [] then Empty else Token(level)
  }

  /** The first pass of mosquitto_sub_topic_tokenise. */
  method CountLevels(subtopic: seq<byte>) returns (hierCount: nat)
    ensures hierCount == |Levels(subtopic)|
  {
    hierCount := 1;
    var i := 0;
    assert subtopic[0..] == subtopic;
    while i < |subtopic|
      invariant 0 <= i <= |subtopic|
      invariant |Levels(subtopic)| == hierCount - 1 + |Levels(subtopic[i..])|
    {
      assert subtopic[i..][1..] == subtopic[i + 1..];
      if subtopic[i] == SLASH {
        hierCount := hierCount + 1;
      }
      i := i + 1;
    }
  }

  /** Moving past the level that ends at `stop`. */
  lemma NextLevel(s: seq<byte>, start: nat, stop: nat)
    requires start <= stop <= |s| && SLASH !in s[start..stop]
    requires stop < |s| ==> s[stop] == SLASH
    ensures Levels(s[start..]) == [s[start..stop]] + (if stop < |s| then Levels(s[stop + 1..]) else [])
  {
    FirstLevel(s[start..], stop - start);
    assert s[start..][..stop - start] == s[start..stop];
    assert stop < |s| ==> s[start..][stop - start + 1..] == s[stop + 1..];
  }

  /** mosquitto_sub_topic_tokenise: one slot per level; the slot of an empty level stays NULL. */
  method SubTopicTokenise(subtopic: seq<byte>) returns (topics: array<Token>)
    requires 0 !in subtopic
    ensures topics.Length == |Levels(subtopic)|
    ensures forall k :: 0 <= k < topics.Length ==> topics[k] == TokenOf(Levels(subtopic)[k])
  {
    hide Levels;
    var len := |subtopic|;
    var hierCount := CountLevels(subtopic);
    topics := new Token[hierCount](_ => Empty);
    var start, hier := 0, 0;
    ghost var ls := Levels(subtopic);
    assert subtopic[0..] == subtopic && ls[0..] == ls;
    var i := 0;
    while i < len + 1
      invariant 0 <= start <= i <= len + 1
      invariant if i <= len then hier < |ls| && ls[hier..] == Levels(subtopic[start..]) && SLASH !in subtopic[start..i]
                else hier == |ls|
      invariant forall k :: 0 <= k < hier ==> topics[k] == TokenOf(ls[k])
      invariant forall k :: hier <= k < topics.Length ==> topics[k] == Empty
    {
      if At(subtopic, i) == SLASH || At(subtopic, i) == 0 {
        var stop := i;
        NextLevel(subtopic, start, stop);
        assert ls[hier] == ls[hier..][0] && ls[hier + 1..] == ls[hier..][1..];
        if start != stop {
          topics[hier] := Token(subtopic[start..stop]);
        }
        start := i + 1;
        hier := hier + 1;
      }
      i := i + 1;
    }
  }

  // ----- well-formed filters and topic names -----

  predicate LevelOk(level: seq<byte>, isLast: bool) {
    && (PLUS in level ==> level == [PLUS])
    && (HASH in level ==> level == [HASH] && isLast)
  }

  /** Section 4.7.1: a wildcard stands alone in its level, and '#' only in the last one. */
  predicate FilterOk(ls: seq<seq<byte>>) {
    forall i :: 0 <= i < |ls| ==> LevelOk(ls[i], i == |ls| - 1)
  }

  predicate NoWildcard(s: seq<byte>) {
    PLUS !in s && HASH !in s
  }

  /** What the character loop of mosquitto_sub_topic_check asks of `s`; `start` says that a level starts here. */
  predicate CharsOk(s: seq<byte>, start: bool) {
    s == []
    || (&& (s[0] == PLUS ==> start && (|s| == 1 || s[1] == SLASH))
        && (s[0] == HASH ==> start && |s| == 1)
        && CharsOk(s[1..], s[0] == SLASH))
  }

  lemma {:induction false} CharsOkIsFilterOk(s: seq<byte>, start: bool)
    ensures CharsOk(s, start) <==> FilterOk(Levels(s)) && (start || NoWildcard(Levels(s)[0]))
  {
    if s != [] {
      var c, rest := s[0], Levels(s[1..]);
      CharsOkIsFilterOk(s[1..], c == SLASH);
      hide FilterOk;
      if c == SLASH {
        FilterSplit([], rest);
      } else {
        FirstEmpty(s[1..]);
        LevelHead(c, rest[0], |rest| == 1);
        FilterSplit([c] + rest[0], rest[1..]);
        FilterSplit(rest[0], rest[1..]);
        assert rest == [rest[0]] + rest[1..];
      }
    }
  }

  lemma FilterSplit(level: seq<byte>, rest: seq<seq<byte>>)
    ensures FilterOk([level] + rest) <==> LevelOk(level, rest == []) && FilterOk(rest)
  {
    var ls := [level] + rest;
    assert ls[0] == level;
    if FilterOk(ls) {
      forall i | 0 <= i < |rest| ensures LevelOk(rest[i], i == |rest| - 1) {
        assert LevelOk(ls[i + 1], i + 1 == |ls| - 1);
      }
    }
  }

  lemma FirstEmpty(s: seq<byte>)
    ensures Levels(s)[0] == [] <==> s == [] || s[0] == SLASH
    ensures |Levels(s)| == 1 && Levels(s)[0] == [] <==> s == []
  {
  }

  lemma LevelHead(c: byte, rest: seq<byte>, isLast: bool)
    ensures LevelOk([c] + rest, isLast) <==>
            NoWildcard(rest) && (c == PLUS ==> rest == []) && (c == HASH ==> rest == [] && isLast)
  {
    var level := [c] + rest;
    assert PLUS in rest ==> PLUS in level && |level| > 1;
    assert HASH in rest ==> HASH in level && |level| > 1;
    assert rest == [] ==> level == [c];
    assert level[0] == c;
  }

  /** mosquitto_sub_topic_check accepts exactly the well-formed filters of at most 65535 octets. */
  method SubTopicCheck(str: seq<byte>) returns (rc: Rc)
    requires 0 !in str
    ensures rc == if FilterOk(Levels(str)) && |str| <= 65535 then Success else Inval
  {
    var c: byte, len, i := 0, 0, 0;
    CharsOkIsFilterOk(str, true);
    while i < |str|
      invariant 0 <= i == len <= |str|
      invariant c == if i == 0 then 0 else str[i - 1]
      invariant CharsOk(str, true) == CharsOk(str[i..], c == 0 || c == SLASH)
    {
      if str[i] == PLUS {
        if (c != 0 && c != SLASH) || (At(str, i + 1) != 0 && At(str, i + 1) != SLASH) {
          return Inval;
        }
      } else if str[i] == HASH {
        if (c != 0 && c != SLASH) || At(str, i + 1) != 0 {
          return Inval;
        }
      }
      len := len + 1;
      c := str[i];
      i := i + 1;
    }
    return if len > 65535 then Inval else Success;
  }

  /** mosquitto_pub_topic_check accepts exactly the wildcard-free names of at most 65535 octets. */
  method PubTopicCheck(str: seq<byte>) returns (rc: Rc)
    ensures rc == if NoWildcard(str) && |str| <= 65535 then Success else Inval
  {
    var len := 0;
    while len < |str|
      invariant 0 <= len <= |str| && NoWildcard(str[..len])
    {
      if str[len] == PLUS || str[len] == HASH {
        return Inval;
      }
      len := len + 1;
    }
    assert str[..len] == str;
    return if len > 65535 then Inval else Success;
  }

  // ----- matching -----

  /** Sections 4.7.1.2 and 4.7.1.3, level by level: '+' matches one level, a trailing '#' the
    * parent and any number of further levels, any other level only itself. */
  predicate LevelsMatch(f: seq<seq<byte>>, t: seq<seq<byte>>) {
    if f != [] && f[|f| - 1] == [HASH] then
      |f| - 1 <= |t| && forall i :: 0 <= i < |f| - 1 ==> f[i] == [PLUS] || f[i] == t[i]
    else
      |f| == |t| && forall i :: 0 <= i < |f| ==> f[i] == [PLUS] || f[i] == t[i]
  }

  /** Level-wise matching of a filter and a topic, or of what is left of them. */
  predicate LevelWise(f: seq<byte>, t: seq<byte>) {
    LevelsMatch(Levels(f), Levels(t))
  }

  /** Section 4.7: level-wise matching, except that a leading wildcard does not match a name that starts with '$'. */
  predicate Matches(filter: seq<byte>, topic: seq<byte>)
    requires filter != [] && topic != []
  {
    && LevelWise(filter, topic)
    && !(topic[0] == DOLLAR && (filter[0] == PLUS || filter[0] == HASH))
  }

  lemma MatchStep(f0: seq<byte>, f: seq<seq<byte>>, t0: seq<byte>, t: seq<seq<byte>>)
    requires f0 != [HASH]
    ensures LevelsMatch([f0] + f, [t0] + t) <==> (f0 == [PLUS] || f0 == t0) && LevelsMatch(f, t)
  {
    var ff, tt := [f0] + f, [t0] + t;
    assert f != [] ==> ff[|ff| - 1] == f[|f| - 1];
    var n := if f != [] && f[|f| - 1] == [HASH] then |f| - 1 else |f|;
    if LevelsMatch(ff, tt) {
      assert ff[0] == f0 && tt[0] == t0;
      forall i | 0 <= i < n
        ensures f[i] == [PLUS] || f[i] == t[i]
      {
        assert ff[i + 1] == f[i] && tt[i + 1] == t[i];
      }
    }
    if LevelsMatch(f, t) && (f0 == [PLUS] || f0 == t0) {
      assert forall i :: 0 <= i < n + 1 ==> ff[i] == [PLUS] || ff[i] == tt[i];
    }
  }

  /** Consuming an equal, non-wildcard character of both strings does not change the verdict. */
  lemma SameChar(f: seq<byte>, t: seq<byte>, start: bool)
    requires f != [] && t != [] && f[0] == t[0] && CharsOk(f, start) && NoWildcard(t)
    ensures LevelWise(f, t) == LevelWise(f[1..], t[1..])
  {
    var F, T := Levels(f[1..]), Levels(t[1..]);
    if f[0] == SLASH {
      MatchStep([], F, [], T);
    } else {
      CharsOkIsFilterOk(f[1..], false);
      assert F[0] != [PLUS] && F[0] != [HASH] && t[0] in t;
      assert ([f[0]] + F[0])[0] == f[0] && f[0] != PLUS && f[0] != HASH;
      assert ([f[0]] + F[0])[1..] == F[0] && ([t[0]] + T[0])[1..] == T[0];
      MatchStep([f[0]] + F[0], F[1..], [t[0]] + T[0], T[1..]);
      MatchStep(F[0], F[1..], T[0], T[1..]);
      assert F == [F[0]] + F[1..] && T == [T[0]] + T[1..];
    }
  }

  /** Consuming a '+' level with the topic's level does not change the verdict. */
  lemma PlusLevel(f: seq<byte>, t: seq<byte>, n: nat)
    requires f != [] && f[0] == PLUS && (|f| == 1 || f[1] == SLASH)
    requires n <= |t| && SLASH !in t[..n] && (n < |t| ==> t[n] == SLASH)
    ensures LevelWise(f, t) == LevelWise(f[1..], t[n..])
  {
    var F := if |f| == 1 then [] else Levels(f[2..]);
    var T := if n == |t| then [] else Levels(t[n + 1..]);
    FirstLevel(f, 1);
    FirstLevel(t, n);
    FirstLevel(f[1..], 0);
    FirstLevel(t[n..], 0);
    assert f[..1] == [PLUS] && f[1..][..0] == [] && t[n..][..0] == [];
    assert |f| > 1 ==> f[1..][1..] == f[2..];
    assert n < |t| ==> t[n..][1..] == t[n + 1..];
    MatchStep([PLUS], F, t[..n], T);
    MatchStep([], F, [], T);
  }

  /** '#' in the last place of a well-formed filter matches whatever is left. */
  lemma HashMatches(t: seq<byte>)
    ensures LevelWise([HASH], t)
    ensures LevelWise([SLASH, HASH], [])
  {
    assert Levels([HASH]) == [[HASH]] by { FirstLevel([HASH], 1); assert [HASH][..1] == [HASH]; }
    FirstLevel([SLASH, HASH], 0);
    assert [SLASH, HASH][1..] == [HASH] && [SLASH, HASH][..0] == [];
    assert Levels([SLASH, HASH]) == [[], [HASH]];
  }

  /** A separator-or-literal mismatch is final, unless only the parent level is left before '/#'. */
  lemma Mismatch(f: seq<byte>, t: seq<byte>, start: bool)
    requires f != [] && f[0] != PLUS && f[0] != HASH && CharsOk(f, start)
    requires t == [] || t[0] != f[0]
    ensures LevelWise(f, t) <==> t == [] && f == [SLASH, HASH]
  {
    var F, T := Levels(f), Levels(t);
    FirstEmpty(f);
    FirstEmpty(t);
    assert F == [F[0]] + F[1..] && T == [T[0]] + T[1..];
    assert f[0] != SLASH ==> F[0][0] == f[0];
    assert t != [] && t[0] != SLASH ==> T[0][0] == t[0];
    MatchStep(F[0], F[1..], T[0], T[1..]);
    if f[0] == SLASH && t == [] {
      assert F[1..] == Levels(f[1..]);
      if LevelsMatch(F[1..], []) {
        assert F[1..] == [[HASH]];
        LevelsJoin(f);
        assert F == [[], [HASH]];
        assert Join(F) == [] + [SLASH] + Join([[HASH]]);
      } else {
        HashMatches([]);
      }
    }
  }

  /** With the filter used up, only a used-up topic matches. */
  lemma FilterUsedUp(t: seq<byte>)
    ensures LevelWise([], t) <==> t == []
  {
    FirstEmpty(t);
    assert Levels([]) == [[]];
    if t == [] {
      assert Levels(t) == [[]];
    }
  }

  /** What the scanner knows at filter position `spos` and topic position `tpos`. */
  ghost predicate Scanned(sub: seq<byte>, spos: nat, topic: seq<byte>, tpos: nat)
    requires spos <= |sub| && tpos <= |topic|
  {
    && NoWildcard(topic)
    && CharsOk(sub[spos..], spos == 0 || sub[spos - 1] == SLASH)
    && LevelWise(sub, topic) == LevelWise(sub[spos..], topic[tpos..])
  }

  predicate EndsInHash(sub: seq<byte>, spos: nat) {
    spos + 2 == |sub| && sub[spos] == SLASH && sub[spos + 1] == HASH
  }

  lemma ScanStart(sub: seq<byte>, topic: seq<byte>)
    requires CharsOk(sub, true) && NoWildcard(topic)
    ensures Scanned(sub, 0, topic, 0)
  {
    assert topic[0..] == topic && sub[0..] == sub;
  }

  lemma ScanSame(sub: seq<byte>, spos: nat, topic: seq<byte>, tpos: nat)
    requires spos < |sub| && tpos < |topic| && sub[spos] == topic[tpos] && Scanned(sub, spos, topic, tpos)
    ensures Scanned(sub, spos + 1, topic, tpos + 1)
  {
    var f, t := sub[spos..], topic[tpos..];
    assert f[1..] == sub[spos + 1..] && t[1..] == topic[tpos + 1..];
    SameChar(f, t, spos == 0 || sub[spos - 1] == SLASH);
  }

  lemma ScanPlus(sub: seq<byte>, spos: nat, topic: seq<byte>, tpos: nat, to: nat)
    requires spos < |sub| && tpos <= to <= |topic| && sub[spos] == PLUS && Scanned(sub, spos, topic, tpos)
    requires SLASH !in topic[tpos..to] && (to < |topic| ==> topic[to] == SLASH)
    ensures Scanned(sub, spos + 1, topic, to)
  {
    ScanPlusPlace(sub, spos, topic, tpos);
    var f, t := sub[spos..], topic[tpos..];
    assert f[1..] == sub[spos + 1..] && t[..to - tpos] == topic[tpos..to] && t[to - tpos..] == topic[to..];
    PlusLevel(f, t, to - tpos);
  }

  /** In a well-formed filter '+' stands alone in its level. */
  lemma ScanPlusPlace(sub: seq<byte>, spos: nat, topic: seq<byte>, tpos: nat)
    requires spos < |sub| && tpos <= |topic| && sub[spos] == PLUS && Scanned(sub, spos, topic, tpos)
    ensures (spos == 0 || sub[spos - 1] == SLASH) && (spos + 1 == |sub| || sub[spos + 1] == SLASH)
  {
    assert sub[spos..][0] == PLUS;
    if spos + 1 < |sub| {
      assert sub[spos..][1] == sub[spos + 1];
    }
  }

  /** The verdict once the filter, or all of it but a wildcard tail, has been scanned. */
  lemma ScanEnd(sub: seq<byte>, spos: nat, topic: seq<byte>, tpos: nat)
    requires spos <= |sub| && tpos <= |topic| && Scanned(sub, spos, topic, tpos)
    ensures spos == |sub| ==> (LevelWise(sub, topic) <==> tpos == |topic|)
    ensures spos < |sub| && sub[spos] == HASH ==>
              (spos == 0 || sub[spos - 1] == SLASH) && spos + 1 == |sub| && LevelWise(sub, topic)
    ensures tpos == |topic| && EndsInHash(sub, spos) ==> LevelWise(sub, topic)
  {
    FilterUsedUp(topic[tpos..]);
    HashMatches(topic[tpos..]);
    if spos < |sub| && sub[spos] == HASH {
      assert sub[spos..] == [HASH];
    }
    if EndsInHash(sub, spos) {
      assert sub[spos..] == [SLASH, HASH];
    }
  }

  lemma ScanMismatch(sub: seq<byte>, spos: nat, topic: seq<byte>, tpos: nat)
    requires spos < |sub| && tpos <= |topic| && sub[spos] != At(topic, tpos) && Scanned(sub, spos, topic, tpos)
    requires sub[spos] != PLUS && sub[spos] != HASH
    ensures LevelWise(sub, topic) <==> tpos == |topic| && EndsInHash(sub, spos)
  {
    var f := sub[spos..];
    Mismatch(f, topic[tpos..], spos == 0 || sub[spos - 1] == SLASH);
    assert f == [SLASH, HASH] <==> EndsInHash(sub, spos);
  }

  /** The inner loop of the scanner: the end of the topic level at `tpos`. */
  method SkipLevel(topic: seq<byte>, tpos: nat) returns (end: nat)
    requires tpos <= |topic|
    ensures tpos <= end <= |topic| && SLASH !in topic[tpos..end]
    ensures end < |topic| ==> topic[end] == SLASH
  {
    end := tpos;
    while end < |topic| && topic[end] != SLASH
      invariant tpos <= end <= |topic| && SLASH !in topic[tpos..end]
    {
      end := end + 1;
    }
  }

  /** The branch of the scanner for equal characters; `done` says that it returns. */
  method EqualStep(sub: seq<byte>, spos: nat, topic: seq<byte>, tpos: nat, ghost ok: bool)
    returns (rc: Rc, done: bool, result: bool)
    requires spos < |sub| && tpos <= |topic| && 0 !in sub && sub[spos] == At(topic, tpos)
    requires ok ==> Scanned(sub, spos, topic, tpos)
    ensures tpos < |topic| && (rc != Success ==> done && !result)
    ensures done && ok ==> rc == Success && result == LevelWise(sub, topic)
    ensures !done ==> !(spos + 1 == |sub| && tpos + 1 == |topic|) && !(tpos + 1 == |topic| && EndsInHash(sub, spos + 1))
    ensures !done && ok ==> Scanned(sub, spos + 1, topic, tpos + 1)
  {
    hide Scanned, LevelWise;
    if ok {
      ScanSame(sub, spos, topic, tpos);
      ScanEnd(sub, spos + 1, topic, tpos + 1);
    }
    if tpos == |topic| - 1 {
      if spos == |sub| - 3 && sub[spos + 1] == SLASH && sub[spos + 2] == HASH {
        return Success, true, true;
      }
    }
    var s, t := spos + 1, tpos + 1;
    if s == |sub| && t == |topic| {
      return Success, true, true;
    } else if t == |topic| && s == |sub| - 1 && sub[s] == PLUS {
      if s > 0 && sub[s - 1] != SLASH {
        if ok {
          ScanPlusPlace(sub, s, topic, t);
        }
        return Inval, true, false;
      }
      if ok {
        ScanPlus(sub, s, topic, t, t);
        ScanEnd(sub, s + 1, topic, t);
      }
      return Success, true, true;
    }
    return Success, false, false;
  }

  /** mosquitto_topic_matches_sub2.  For a well-formed filter and topic name the scanner returns
    * success and decides section 4.7; an empty string is refused. */
  method TopicMatchesSub(sub: seq<byte>, topic: seq<byte>) returns (rc: Rc, result: bool)
    requires 0 !in sub && 0 !in topic
    ensures sub == [] || topic == [] ==> rc == Inval
    ensures sub != [] && topic != [] && FilterOk(Levels(sub)) && NoWildcard(topic) ==>
              rc == Success && result == Matches(sub, topic)
    ensures rc != Success ==> !result
  {
    if |sub| == 0 || |topic| == 0 {
      return Inval, false;
    }
    hide CharsOk, FilterOk, LevelWise, LevelsMatch, Levels, Scanned, NoWildcard;
    CharsOkIsFilterOk(sub, true);
    ghost var ok := CharsOk(sub, true) && NoWildcard(topic);
    if ok {
      ScanStart(sub, topic);
    }
    if (sub[0] == DOLLAR && topic[0] != DOLLAR) || (topic[0] == DOLLAR && sub[0] != DOLLAR) {
      if ok && sub[0] != PLUS && sub[0] != HASH {
        ScanMismatch(sub, 0, topic, 0);
      }
      return Success, false;
    }
    var spos, tpos := 0, 0;
    while spos < |sub| && tpos <= |topic|
      invariant 0 <= spos <= |sub| && 0 <= tpos <= |topic|
      invariant !(spos == |sub| && tpos == |topic|)
      invariant ok ==> Scanned(sub, spos, topic, tpos)
      invariant tpos == |topic| && EndsInHash(sub, spos) ==> spos > 0 && sub[spos - 1] == PLUS
      decreases |sub| - spos
    {
      if sub[spos] == At(topic, tpos) {
        var done;
        rc, done, result := EqualStep(sub, spos, topic, tpos, ok);
        if done {
          return;
        }
        spos := spos + 1;
        tpos := tpos + 1;
      } else {
        if sub[spos] == PLUS {
          ghost var from := tpos;
          if ok {
            ScanPlusPlace(sub, spos, topic, tpos);
          }
          if spos > 0 && sub[spos - 1] != SLASH {
            return Inval, false;
          }
          if spos < |sub| - 1 && sub[spos + 1] != SLASH {
            return Inval, false;
          }
          spos := spos + 1;
          tpos := SkipLevel(topic, tpos);
          if ok {
            ScanPlus(sub, spos - 1, topic, from, tpos);
            ScanEnd(sub, spos, topic, tpos);
          }
          if tpos == |topic| && spos == |sub| {
            return Success, true;
          }
        } else if sub[spos] == HASH {
          if ok {
            ScanEnd(sub, spos, topic, tpos);
          }
          if spos > 0 && sub[spos - 1] != SLASH {
            return Inval, false;
          }
          if spos + 1 != |sub| {
            return Inval, false;
          } else {
            return Success, true;
          }
        } else {
          if ok {
            ScanMismatch(sub, spos, topic, tpos);
          }
          if spos > 0 && spos + 2 == |sub| && tpos == |topic|
             && sub[spos - 1] == PLUS && sub[spos] == SLASH && sub[spos + 1] == HASH
          {
            return Success, true;
          }
          return Success, false;
        }
      }
    }
    if ok {
      ScanEnd(sub, spos, topic, tpos);
    }
    return Success, false;
  }
}
