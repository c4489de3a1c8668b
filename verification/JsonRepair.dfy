/**
 * Repairing almost-JSON whose strings hold raw control characters.
 *
 * The repair only tracks whether it is inside a string. Its partner is a reader of JSON strings (section 7 of RFC 8259)
 * in two strictnesses: strict, and lenient about raw control characters.
 */
module JsonRepair {

  const SPACE := 0x20

  datatype Mode = Outside | Inside | Escaped

  function HexDigit(n: int): char
    requires 0 <= n < 16
  {
    if n < 10 then '0' + n as char else 'a' + (n - 10) as char
  }

  /** The escape written for a control character. */
  function Escape(ch: char): string
    requires ch as int < SPACE
  {
    var code := ch as int;
    if code == 0x0a then "\\n" else if code == 0x0d then "\\r" else if code == 0x09 then "\\t"
    else "\\u00" + [HexDigit(code / 16), HexDigit(code % 16)]
  }

  function Step(mode: Mode, ch: char): Mode {
    match mode
    case Outside => if ch == '"' then Inside else Outside
    case Inside => if ch == '\\' then Escaped else if ch == '"' then Outside else Inside
    case Escaped => Inside
  }

  function Emit(mode: Mode, ch: char): string {
    if mode == Inside && ch as int < SPACE then Escape(ch) else [ch]
  }

  function Repair(mode: Mode, s: string): string
    decreases |s|
  {
    if s == "" then "" else Emit(mode, s[0]) + Repair(Step(mode, s[0]), s[1..])
  }

  function ModeAfter(mode: Mode, s: string): Mode
    decreases |s|
  {
    if s == "" then mode else ModeAfter(Step(mode, s[0]), s[1..])
  }

  lemma Assoc(a: string, b: string, c: string)
    ensures (a + b) + c == a + (b + c)
  {
  }

  lemma {:induction false} RepairAppends(mode: Mode, s: string, t: string)
    ensures Repair(mode, s + t) == Repair(mode, s) + Repair(ModeAfter(mode, s), t)
    ensures ModeAfter(mode, s + t) == ModeAfter(ModeAfter(mode, s), t)
    decreases |s|
  {
    if s == "" {
      assert s + t == t;
    } else {
      var next, rest := Step(mode, s[0]), s[1..];
      RepairAppends(next, rest, t);
      assert (s + t)[0] == s[0] && (s + t)[1..] == rest + t;
      Assoc(Emit(mode, s[0]), Repair(next, rest), Repair(ModeAfter(next, rest), t));
    }
  }

  lemma RepairOne(mode: Mode, ch: char)
    ensures Repair(mode, [ch]) == Emit(mode, ch) && ModeAfter(mode, [ch]) == Step(mode, ch)
  {
    assert [ch][1..] == "";
    assert Emit(mode, ch) + "" == Emit(mode, ch);
  }

  /** The loop of the program. */
  method EscapeCtrlInJsonStrings(input: string) returns (out: string)
    ensures out == Repair(Outside, input)
  {
    out := "";
    var inString, escaped := false, false;
    for i := 0 to |input|
      invariant out == Repair(Outside, input[..i])
      invariant ModeAfter(Outside, input[..i]) == if !inString then Outside else if escaped then Escaped else Inside
    {
      var ch := input[i];
      RepairAppends(Outside, input[..i], [ch]);
      RepairOne(ModeAfter(Outside, input[..i]), ch);
      assert input[..i + 1] == input[..i] + [ch];
      if inString {
        if escaped {
          out, escaped := out + [ch], false;
        } else if ch == '\\' {
          out, escaped := out + [ch], true;
        } else if ch == '"' {
          inString, out := false, out + [ch];
        } else if ch as int < SPACE {
          out := out + Escape(ch);
        } else {
          out := out + [ch];
        }
      } else {
        if ch == '"' { inString, escaped := true, false; }
        out := out + [ch];
      }
    }
    assert input[..|input|] == input;
  }

  // ---- the repair is stable and clean ----

  lemma Unroll2(mode: Mode, a: char, b: char)
    ensures Repair(mode, [a, b]) == Emit(mode, a) + Emit(Step(mode, a), b)
    ensures ModeAfter(mode, [a, b]) == Step(Step(mode, a), b)
  {
    RepairAppends(mode, [a], [b]);
    RepairOne(mode, a);
    RepairOne(Step(mode, a), b);
    assert [a] + [b] == [a, b];
  }

  lemma EmittedIsStable(mode: Mode, ch: char)
    ensures Repair(mode, Emit(mode, ch)) == Emit(mode, ch) && ModeAfter(mode, Emit(mode, ch)) == Step(mode, ch)
  {
    if mode == Inside && ch as int < SPACE {
      var e := Escape(ch);
      Unroll2(Inside, e[0], e[1]);
      if |e| == 2 {
        assert e == [e[0], e[1]];
      } else {
        Unroll2(Inside, e[2], e[3]);
        Unroll2(Inside, e[4], e[5]);
        RepairAppends(Inside, [e[0], e[1]], [e[2], e[3]]);
        RepairAppends(Inside, [e[0], e[1]] + [e[2], e[3]], [e[4], e[5]]);
        assert e == [e[0], e[1]] + [e[2], e[3]] + [e[4], e[5]];
      }
    } else {
      RepairOne(mode, ch);
    }
  }

  /** Repairing twice is repairing once, and the repaired text leaves the same string open. */
  lemma {:induction false} RepairIsIdempotent(mode: Mode, s: string)
    ensures Repair(mode, Repair(mode, s)) == Repair(mode, s) && ModeAfter(mode, Repair(mode, s)) == ModeAfter(mode, s)
    decreases |s|
  {
    if s != "" {
      EmittedIsStable(mode, s[0]);
      RepairIsIdempotent(Step(mode, s[0]), s[1..]);
      RepairAppends(mode, Emit(mode, s[0]), Repair(Step(mode, s[0]), s[1..]));
    }
  }

  /** No control character stands inside a string, unless directly after a backslash. */
  ghost predicate NoRawControls(mode: Mode, s: string) {
    forall i | 0 <= i < |s| :: ModeAfter(mode, s[..i]) == Inside ==> s[i] as int >= SPACE
  }

  lemma {:induction false} RepairGrows(mode: Mode, s: string)
    ensures |Repair(mode, s)| >= |s|
    decreases |s|
  {
    if s != "" { RepairGrows(Step(mode, s[0]), s[1..]); }
  }

  lemma CleanTail(mode: Mode, s: string)
    requires s != ""
    ensures NoRawControls(mode, s) <==> (mode == Inside ==> s[0] as int >= SPACE) && NoRawControls(Step(mode, s[0]), s[1..])
  {
    var next, rest := Step(mode, s[0]), s[1..];
    assert ModeAfter(mode, s[..0]) == mode;
    forall i | 0 <= i < |rest| ensures ModeAfter(next, rest[..i]) == ModeAfter(mode, s[..i + 1]) && rest[i] == s[i + 1] {
      assert s[..i + 1][1..] == rest[..i];
    }
    forall i | 0 < i < |s| ensures ModeAfter(mode, s[..i]) == ModeAfter(next, rest[..i - 1]) && s[i] == rest[i - 1] {
      assert s[..i][1..] == rest[..i - 1];
    }
  }

  /** A text is its own repair exactly if its first character is and the rest is. */
  lemma FixpointTail(mode: Mode, s: string)
    requires s != ""
    ensures Repair(mode, s) == s <==> Emit(mode, s[0]) == [s[0]] && Repair(Step(mode, s[0]), s[1..]) == s[1..]
  {
    var e, r := Emit(mode, s[0]), Repair(Step(mode, s[0]), s[1..]);
    assert s == [s[0]] + s[1..];
    RepairGrows(Step(mode, s[0]), s[1..]);
    if e + r == s {
      assert |e| == 1 && e[0] == s[0];
      assert r == (e + r)[1..];
    }
  }

  lemma {:induction false} FixpointIsClean(mode: Mode, s: string)
    ensures Repair(mode, s) == s <==> NoRawControls(mode, s)
    decreases |s|
  {
    if s != "" {
      FixpointIsClean(Step(mode, s[0]), s[1..]);
      CleanTail(mode, s);
      FixpointTail(mode, s);
    }
  }

  /** The repaired text is clean, and a text is left as it is exactly when it was clean. */
  lemma RepairCleans(s: string)
    ensures NoRawControls(Outside, Repair(Outside, s))
    ensures Repair(Outside, s) == s <==> NoRawControls(Outside, s)
  {
    RepairIsIdempotent(Outside, s);
    FixpointIsClean(Outside, Repair(Outside, s));
    FixpointIsClean(Outside, s);
  }

  // ---- what a reader makes of it ----

  datatype Token = Structure(ch: char) | Open | Close | Unit(code: int)

  datatype Reader = Between | Within | AfterBackslash | Hex(left: nat, code: int) | Rejected

  /** What has been read so far, and where the reader stands. */
  datatype Reading = Reading(at: Reader, tokens: seq<Token>)

  function HexValue(ch: char): int {
    if '0' <= ch <= '9' then ch as int - '0' as int
    else if 'a' <= ch <= 'f' then ch as int - 'a' as int + 10
    else if 'A' <= ch <= 'F' then ch as int - 'A' as int + 10
    else -1
  }

  /** The code unit of a two-character escape, or -1. */
  function Simple(ch: char): int {
    match ch
    case '"' => 0x22
    case '\\' => 0x5c
    case '/' => 0x2f
    case 'b' => 0x08
    case 'f' => 0x0c
    case 'n' => 0x0a
    case 'r' => 0x0d
    case 't' => 0x09
    case _ => -1
  }

  function Read(strict: bool, r: Reading, ch: char): Reading {
    match r.at
    case Between => if ch == '"' then Reading(Within, r.tokens + [Open]) else Reading(Between, r.tokens + [Structure(ch)])
    case Within =>
      if ch == '"' then Reading(Between, r.tokens + [Close])
      else if ch == '\\' then Reading(AfterBackslash, r.tokens)
      else if strict && ch as int < SPACE then Reading(Rejected, r.tokens)
      else Reading(Within, r.tokens + [Unit(ch as int)])
    case AfterBackslash =>
      if ch == 'u' then Reading(Hex(4, 0), r.tokens)
      else if Simple(ch) >= 0 then Reading(Within, r.tokens + [Unit(Simple(ch))])
      else Reading(Rejected, r.tokens)
    case Hex(left, code) =>
      if HexValue(ch) < 0 then Reading(Rejected, r.tokens)
      else if left <= 1 then Reading(Within, r.tokens + [Unit(code * 16 + HexValue(ch))])
      else Reading(Hex(left - 1, code * 16 + HexValue(ch)), r.tokens)
    case Rejected => r
  }

  function ReadAll(strict: bool, r: Reading, s: string): Reading
    decreases |s|
  {
    if s == "" then r else ReadAll(strict, Read(strict, r, s[0]), s[1..])
  }

  lemma {:induction false} ReadAppends(strict: bool, r: Reading, s: string, t: string)
    ensures ReadAll(strict, r, s + t) == ReadAll(strict, ReadAll(strict, r, s), t)
    decreases |s|
  {
    if s == "" {
      assert s + t == t;
    } else {
      ReadAppends(strict, Read(strict, r, s[0]), s[1..], t);
      assert (s + t)[1..] == s[1..] + t;
    }
  }

  /** Where the repair stands when a reader that has not rejected stands there: it does not tell hex digits from text. */
  predicate Along(at: Reader, mode: Mode) {
    match at
    case Between => mode == Outside
    case Within => mode == Inside
    case AfterBackslash => mode == Escaped
    case Hex(_, _) => mode == Inside
    case Rejected => true
  }

  lemma ReadsTwo(r: Reading, a: char, b: char)
    ensures ReadAll(true, r, [a, b]) == Read(true, Read(true, r, a), b)
  {
    assert [a, b][1..] == [b] && [b][1..] == "";
    assert ReadAll(true, Read(true, r, a), [b]) == ReadAll(true, Read(true, Read(true, r, a), b), "");
  }

  lemma ReadsUnicodeEscape(r: Reading, ch: char)
    requires ch as int < SPACE && r.at == Within && |Escape(ch)| == 6
    ensures ReadAll(true, r, Escape(ch)) == Reading(Within, r.tokens + [Unit(ch as int)])
  {
    var e, hi, lo := Escape(ch), ch as int / 16, ch as int % 16;
    assert e == ['\\', 'u'] + ['0', '0'] + [HexDigit(hi), HexDigit(lo)];
    ReadAppends(true, r, ['\\', 'u'], ['0', '0']);
    ReadAppends(true, r, ['\\', 'u'] + ['0', '0'], [HexDigit(hi), HexDigit(lo)]);
    ReadsTwo(r, '\\', 'u');
    ReadsTwo(Reading(Hex(4, 0), r.tokens), '0', '0');
    assert HexValue(HexDigit(hi)) == hi && HexValue(HexDigit(lo)) == lo;
    ReadsTwo(Reading(Hex(2, 0), r.tokens), HexDigit(hi), HexDigit(lo));
  }

  lemma ReadsEscape(r: Reading, ch: char)
    requires ch as int < SPACE && (r.at == Within || r.at.Hex?)
    ensures ReadAll(true, r, Escape(ch)) == Read(false, r, ch)
  {
    var e := Escape(ch);
    if r.at.Hex? {
      assert Read(true, r, e[0]) == Reading(Rejected, r.tokens);
      RejectedStays(true, Read(true, r, e[0]), e[1..]);
    } else if |e| == 2 {
      ReadsTwo(r, e[0], e[1]);
      assert e == [e[0], e[1]];
    } else {
      ReadsUnicodeEscape(r, ch);
    }
  }

  lemma {:induction false} RejectedStays(strict: bool, r: Reading, s: string)
    requires r.at == Rejected
    ensures ReadAll(strict, r, s) == r
    decreases |s|
  {
    if s != "" { RejectedStays(strict, r, s[1..]); }
  }

  lemma {:induction false} ReadsAlike(r: Reading, mode: Mode, s: string)
    requires Along(r.at, mode)
    ensures ReadAll(true, r, Repair(mode, s)) == ReadAll(false, r, s)
    decreases |s|
  {
    if r.at == Rejected {
      RejectedStays(true, r, Repair(mode, s));
      RejectedStays(false, r, s);
    } else if s != "" {
      var ch := s[0];
      ReadAppends(true, r, Emit(mode, ch), Repair(Step(mode, ch), s[1..]));
      if mode == Inside && ch as int < SPACE {
        ReadsEscape(r, ch);
      } else {
        assert [ch][1..] == "";
        assert ReadAll(true, r, [ch]) == Read(true, r, ch);
      }
      ReadsAlike(Read(false, r, ch), Step(mode, ch), s[1..]);
    }
  }

  const START := Reading(Between, [])

  /**
   * For every text, a strict reader of the repaired text gets exactly what a reader that tolerates raw control
   * characters gets from the original: the same structure, the same code units in every string, the same open string
   * at the end, and a rejection at an escape exactly when the original has one.
   */
  lemma RepairPreservesMeaning(s: string)
    ensures ReadAll(true, START, Repair(Outside, s)) == ReadAll(false, START, s)
  {
    ReadsAlike(START, Outside, s);
  }

  lemma {:induction false} StrictIsClean(r: Reading, mode: Mode, s: string)
    requires Along(r.at, mode) && ReadAll(true, r, s).at != Rejected
    ensures Repair(mode, s) == s
    decreases |s|
  {
    if s != "" {
      var ch := s[0];
      if Read(true, r, ch).at == Rejected { RejectedStays(true, Read(true, r, ch), s[1..]); }
      StrictIsClean(Read(true, r, ch), Step(mode, ch), s[1..]);
      assert s == [ch] + s[1..];
    }
  }

  /** Text whose strings are valid is not touched. */
  lemma ValidTextIsUntouched(s: string)
    requires ReadAll(true, START, s).at != Rejected
    ensures Repair(Outside, s) == s
  {
    StrictIsClean(START, Outside, s);
  }
}
