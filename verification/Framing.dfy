/** CRLF framing as a function of the whole byte stream (api/wire.py). */
module Framing {
  import opened Prelude

  type Byte = b: int | 0 <= b < 0x100
  type Bytes = seq<Byte>

  const CR: Byte := 13
  const LF: Byte := 10

  /** `wire.TERMINATOR` */
  const TERMINATOR: Bytes := [CR, LF]

  predicate TerminatorAt(s: Bytes, i: int) {
    0 <= i && i + 1 < |s| && s[i] == CR && s[i + 1] == LF
  }

  /** Where the first terminator starts, or `|s|` if there is none. */
  function Find(s: Bytes): (i: nat)
    ensures i <= |s|
    ensures i < |s| ==> TerminatorAt(s, i)
    ensures forall j | 0 <= j < i :: !TerminatorAt(s, j)
  {
    if |s| < 2 then |s|
    else if TerminatorAt(s, 0) then 0
    else
      var i := Find(s[1..]);
      assert forall j | 1 <= j < 1 + i :: TerminatorAt(s, j) ==> TerminatorAt(s[1..], j - 1);
      1 + i
  }

  /** `TERMINATOR in s` */
  predicate Terminated(s: Bytes) {
    Find(s) < |s|
  }

  /** The complete lines of a stream, blank ones included, without terminators. */
  function Lines(s: Bytes): seq<Bytes>
    decreases |s|
  {
    if Terminated(s) then [s[..Find(s)]] + Lines(s[Find(s) + 2..]) else []
  }

  /** What follows the last terminator. */
  function Rest(s: Bytes): Bytes
    decreases |s|
  {
    if Terminated(s) then Rest(s[Find(s) + 2..]) else s
  }

  /** The stream that carries these lines. */
  function Join(lines: seq<Bytes>): Bytes {
    if lines == [] then [] else lines[0] + TERMINATOR + Join(lines[1..])
  }

  /** No line has a terminator inside. */
  predicate AllBare(lines: seq<Bytes>) {
    lines != [] ==> !Terminated(lines[0]) && AllBare(lines[1..])
  }

  function NonBlank(lines: seq<Bytes>): seq<Bytes> {
    if lines == [] then []
    else (if lines[0] == [] then [] else [lines[0]]) + NonBlank(lines[1..])
  }

  /** The first terminator is wherever a terminator has none before it. */
  lemma FindIs(s: Bytes, i: nat)
    requires TerminatorAt(s, i) && forall j | 0 <= j < i :: !TerminatorAt(s, j)
    ensures Find(s) == i
  {
  }

  lemma NotTerminated(s: Bytes)
    requires forall j | 0 <= j < |s| :: !TerminatorAt(s, j)
    ensures !Terminated(s)
  {
  }

  /** Bytes that arrive later do not move the first terminator. */
  lemma FindAppend(s: Bytes, t: Bytes)
    requires Terminated(s)
    ensures Find(s + t) == Find(s)
  {
    assert TerminatorAt(s + t, Find(s));
    forall j | 0 <= j < Find(s) ensures !TerminatorAt(s + t, j) {
      assert !TerminatorAt(s, j);
    }
    FindIs(s + t, Find(s));
  }

  /** Lines and remainder are nothing but the stream, cut up. */
  lemma {:induction false} Reassemble(s: Bytes)
    ensures Join(Lines(s)) + Rest(s) == s
    ensures !Terminated(Rest(s))
    decreases |s|
  {
    if Terminated(s) {
      var i := Find(s);
      Reassemble(s[i + 2..]);
      assert s == s[..i] + TERMINATOR + s[i + 2..];
      assert Lines(s)[1..] == Lines(s[i + 2..]);
      assert Join(Lines(s)) == s[..i] + TERMINATOR + Join(Lines(s[i + 2..]));
      assert Join(Lines(s)) + Rest(s) == s[..i] + TERMINATOR + (Join(Lines(s[i + 2..])) + Rest(s[i + 2..]));
    }
  }

  lemma {:induction false} LinesAreBare(s: Bytes)
    ensures AllBare(Lines(s))
    decreases |s|
  {
    if Terminated(s) {
      var i := Find(s);
      LinesAreBare(s[i + 2..]);
      forall j | 0 <= j < i ensures !TerminatorAt(s[..i], j) {
        assert !TerminatorAt(s, j);
      }
      NotTerminated(s[..i]);
    }
  }

  /** Splitting may be done piece by piece: only the remainder has to be kept.
      This is what makes chunk boundaries invisible, even one between CR and LF. */
  lemma {:induction false} SplitAppend(s: Bytes, t: Bytes)
    ensures Lines(s + t) == Lines(s) + Lines(Rest(s) + t)
    ensures Rest(s + t) == Rest(Rest(s) + t)
    decreases |s|
  {
    if Terminated(s) {
      var i := Find(s);
      FindAppend(s, t);
      assert (s + t)[..i] == s[..i];
      assert (s + t)[i + 2..] == s[i + 2..] + t;
      SplitAppend(s[i + 2..], t);
    }
  }

  /** A line without a terminator inside, once terminated, reads back as itself. */
  lemma SplitLine(l: Bytes, t: Bytes)
    requires !Terminated(l)
    ensures Terminated(l + TERMINATOR + t)
    ensures Find(l + TERMINATOR + t) == |l|
    ensures Lines(l + TERMINATOR + t) == [l] + Lines(t)
    ensures Rest(l + TERMINATOR + t) == Rest(t)
  {
    var s := l + TERMINATOR + t;
    assert TerminatorAt(s, |l|);
    forall j | 0 <= j < |l| ensures !TerminatorAt(s, j) {
      assert !TerminatorAt(l, j);
    }
    FindIs(s, |l|);
    assert s[..|l|] == l && s[|l| + 2..] == t;
  }

  lemma JoinStep(lines: seq<Bytes>, t: Bytes)
    requires lines != []
    ensures Join(lines) + t == lines[0] + TERMINATOR + (Join(lines[1..]) + t)
  {
  }

  lemma SplitStep(lines: seq<Bytes>, tail: Bytes, t: Bytes)
    requires lines != [] && !Terminated(lines[0])
    requires Lines(tail) == lines[1..] + Lines(t) && Rest(tail) == Rest(t)
    ensures Lines(lines[0] + TERMINATOR + tail) == lines + Lines(t)
    ensures Rest(lines[0] + TERMINATOR + tail) == Rest(t)
  {
    SplitLine(lines[0], tail);
  }

  /** `Lines` inverts `Join`: a stream decodes to exactly the lines written to it. */
  lemma {:induction false} SplitJoin(lines: seq<Bytes>, t: Bytes)
    requires AllBare(lines)
    ensures Lines(Join(lines) + t) == lines + Lines(t)
    ensures Rest(Join(lines) + t) == Rest(t)
  {
    if lines == [] {
      assert Join(lines) + t == t;
    } else {
      SplitJoin(lines[1..], t);
      JoinStep(lines, t);
      SplitStep(lines, Join(lines[1..]) + t, t);
    }
  }

  /** The lines of an initial part of a stream are its first lines. */
  lemma LinesOfPrefix(s: Bytes, whole: Bytes)
    requires s <= whole
    ensures Lines(s) <= Lines(whole)
  {
    SplitAppend(s, whole[|s|..]);
    assert s + whole[|s|..] == whole;
  }

  lemma {:induction false} NonBlankConcat(a: seq<Bytes>, b: seq<Bytes>)
    ensures NonBlank(a + b) == NonBlank(a) + NonBlank(b)
  {
    if a == [] {
      assert a + b == b;
    } else {
      var head := if a[0] == [] then [] else [a[0]];
      NonBlankConcat(a[1..], b);
      assert (a + b)[0] == a[0] && (a + b)[1..] == a[1..] + b;
      assert NonBlank(a + b) == head + (NonBlank(a[1..]) + NonBlank(b));
    }
  }

  lemma {:induction false} NonBlankMember(lines: seq<Bytes>, l: Bytes)
    ensures l in NonBlank(lines) <==> l in lines && l != []
  {
    if lines != [] {
      NonBlankMember(lines[1..], l);
    }
  }

  lemma {:induction false} JoinConcat(a: seq<Bytes>, b: seq<Bytes>)
    ensures Join(a + b) == Join(a) + Join(b)
  {
    if a == [] {
      assert a + b == b;
    } else {
      JoinConcat(a[1..], b);
      assert (a + b)[0] == a[0] && (a + b)[1..] == a[1..] + b;
    }
  }

  lemma {:induction false} BareConcat(a: seq<Bytes>, b: seq<Bytes>)
    requires AllBare(a) && AllBare(b)
    ensures AllBare(a + b)
  {
    if a == [] {
      assert a + b == b;
    } else {
      BareConcat(a[1..], b);
      assert (a + b)[1..] == a[1..] + b;
    }
  }

  /** Cutting the first line off a buffer, after the lines already cut off. */
  lemma CutLine(popped: seq<Bytes>, buffer: Bytes)
    requires Terminated(buffer) && AllBare(popped)
    ensures var line, after := buffer[..Find(buffer)], buffer[Find(buffer) + 2..];
      && AllBare(popped + [line])
      && Join(popped) + buffer == Join(popped + [line]) + after
      && NonBlank(popped + [line]) == NonBlank(popped) + if line == [] then [] else [line]
  {
    var line, after := buffer[..Find(buffer)], buffer[Find(buffer) + 2..];
    forall j | 0 <= j < |line| ensures !TerminatorAt(line, j) {
      assert !TerminatorAt(buffer, j);
    }
    NotTerminated(line);
    BareConcat(popped, [line]);
    NonBlankConcat(popped, [line]);
    assert buffer == line + TERMINATOR + after;
    JoinConcat(popped, [line]);
    assert Join([line]) == line + TERMINATOR + [];
    assert Join(popped) + (line + TERMINATOR + after) == (Join(popped) + (line + TERMINATOR)) + after;
  }

  // ---------- the same in bytes ----------

  /** Somewhere a byte 13 is followed by a byte 10. */
  ghost predicate HasLineEnd(s: Bytes) {
    exists i :: 0 <= i < |s| - 1 && s[i] == 13 && s[i + 1] == 10
  }

  /** Each line followed by the bytes 13 and 10. */
  ghost function Ended(lines: seq<Bytes>): Bytes {
    if lines == [] then [] else lines[0] + [13, 10] + Ended(lines[1..])
  }

  lemma HasLineEndSays(s: Bytes)
    ensures HasLineEnd(s) <==> Terminated(s)
  {
    if HasLineEnd(s) {
      var i :| 0 <= i < |s| - 1 && s[i] == 13 && s[i + 1] == 10;
      assert TerminatorAt(s, i);
    } else {
      NotTerminated(s);
    }
  }

  lemma {:induction false} EndedIsJoin(lines: seq<Bytes>)
    ensures Ended(lines) == Join(lines)
    ensures AllBare(lines) <==> forall i | 0 <= i < |lines| :: !HasLineEnd(lines[i])
  {
    hide HasLineEnd, Terminated;
    if lines != [] {
      EndedIsJoin(lines[1..]);
      HasLineEndSays(lines[0]);
      assert forall i | 1 <= i < |lines| :: lines[i] == lines[1..][i - 1];
      if AllBare(lines) {
        forall i | 0 <= i < |lines| ensures !HasLineEnd(lines[i]) {
          if i > 0 { assert !HasLineEnd(lines[1..][i - 1]); }
        }
      } else if !Terminated(lines[0]) {
        var i :| 0 <= i < |lines[1..]| && HasLineEnd(lines[1..][i]);
        assert HasLineEnd(lines[i + 1]);
      }
    }
  }

  /** Splitting a stream, exactly: these are its lines and its remainder exactly if, with 13 and 10 after each line,
      they make up the stream, and nowhere in them a 13 is followed by a 10. */
  lemma SplitExactly(s: Bytes, lines: seq<Bytes>, rest: Bytes)
    ensures Lines(s) == lines && Rest(s) == rest <==>
      && s == Ended(lines) + rest && !HasLineEnd(rest)
      && forall i | 0 <= i < |lines| :: !HasLineEnd(lines[i])
  {
    hide HasLineEnd, Terminated;
    EndedIsJoin(lines);
    HasLineEndSays(rest);
    if Lines(s) == lines && Rest(s) == rest {
      Reassemble(s);
      LinesAreBare(s);
    }
    if s == Join(lines) + rest && !Terminated(rest) && AllBare(lines) {
      SplitJoin(lines, rest);
      NoLines(rest);
      assert lines + [] == lines;
    }
    hide Join, Ended;
  }

  lemma NoLines(s: Bytes)
    requires !Terminated(s)
    ensures Lines(s) == [] && Rest(s) == s
  {
  }
}
