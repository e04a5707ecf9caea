/** Option and Result, the bot's "missing value" and "raised an error" paths. */
module Wrappers {
  datatype Option<T> = None | Some(value: T)

  datatype Result<T> = Ok(value: T) | Err(error: string)
}

/**
 * The text operations of Python's `str` that the bot relies on:
 * digits and `int()`, decimal rendering, `lower()`, `strip()`,
 * `split(sep)`, `split()`, `join` and substring search.
 * Whitespace and case folding are modelled for ASCII and basic Cyrillic.
 */
module Strings {
  import opened Wrappers

  predicate IsDigit(c: char) { '0' <= c <= '9' }

  predicate IsAllDigits(s: string) { forall i | 0 <= i < |s| :: IsDigit(s[i]) }

  function DigitValue(c: char): (d: nat)
    requires IsDigit(c)
    ensures d < 10
  { (c as int) - ('0' as int) }

  function DigitChar(d: nat): (c: char)
    requires d < 10
    ensures IsDigit(c) && DigitValue(c) == d
  { ('0' as int + d) as char }

  /** Value of a string of decimal digits, most significant digit first. */
  function DigitsToNat(s: string): nat
    requires IsAllDigits(s)
    decreases |s|
  {
    if s == [] then 0 else 10 * DigitsToNat(s[..|s| - 1]) + DigitValue(s[|s| - 1])
  }

  /** Decimal rendering of a natural number, as `str(n)`. */
  function NatToString(n: nat): (s: string)
    ensures 1 <= |s| && IsAllDigits(s)
    ensures DigitsToNat(s) == n
    ensures n < 10 <==> |s| == 1
    decreases n
  {
    if n < 10 then [DigitChar(n)]
    else
      var prefix := NatToString(n / 10);
      var s := prefix + [DigitChar(n % 10)];
      assert s[..|s| - 1] == prefix;
      s
  }

  /** `str(i)` for any integer. */
  function IntToString(i: int): (s: string)
    ensures 1 <= |s|
    ensures i >= 0 ==> IsAllDigits(s) && DigitsToNat(s) == i
    ensures i < 0 ==> s[0] == '-' && IsAllDigits(s[1..]) && DigitsToNat(s[1..]) == -i
  {
    if i < 0 then "-" + NatToString(-i) else NatToString(i)
  }

  /** A number from 1000 to 9999 is written with exactly four digits. */
  lemma FourDigits(n: nat)
    requires 1000 <= n <= 9999
    ensures |NatToString(n)| == 4
  {
    var a := n / 10;
    var b := a / 10;
    var c := b / 10;
    assert 1 <= c < 10;
    assert |NatToString(c)| == 1;
    assert |NatToString(b)| == 2;
    assert |NatToString(a)| == 3;
  }

  /** `f"{n:02d}"` for a natural number: at least two digits, zero padded. */
  function Pad2(n: nat): (s: string)
    ensures 2 <= |s| && IsAllDigits(s) && DigitsToNat(s) == n
    ensures n < 100 ==> |s| == 2
  {
    if n < 10 then
      var s := ['0', DigitChar(n)];
      assert DigitsToNat(s[..1]) == 0 by { assert s[..1][..0] == []; }
      s
    else NatToString(n)
  }

  /**
   * Python's `str.isspace()`, which `strip()`, `split()` and `int()` use:
   * the ASCII blanks and separators 0x09-0x0D and 0x1C-0x1F, and the Unicode
   * spaces and line and paragraph separators.
   */
  predicate IsSpace(c: char)
  {
    ('\U{0009}' <= c <= '\U{000D}') || ('\U{001C}' <= c <= '\U{0020}') ||
    c == '\U{0085}' || c == '\U{00A0}' || c == '\U{1680}' ||
    ('\U{2000}' <= c <= '\U{200A}') || c == '\U{2028}' || c == '\U{2029}' ||
    c == '\U{202F}' || c == '\U{205F}' || c == '\U{3000}'
  }

  function LowerChar(c: char): (l: char)
  {
    if 'A' <= c <= 'Z' then (c as int + 32) as char
    else if 'А' <= c <= 'Я' then (c as int + 32) as char
    else if c == 'Ё' then 'ё'
    else c
  }

  /** `s.lower()`: same length, each character lowered independently. */
  function Lower(s: string): (r: string)
    ensures |r| == |s|
    ensures forall i | 0 <= i < |s| :: r[i] == LowerChar(s[i])
  {
    if s == [] then [] else [LowerChar(s[0])] + Lower(s[1..])
  }

  lemma LowerIdempotent(s: string)
    ensures Lower(Lower(s)) == Lower(s)
  {
    forall i | 0 <= i < |s| ensures Lower(Lower(s))[i] == Lower(s)[i] {
      var c := s[i];
      assert LowerChar(LowerChar(c)) == LowerChar(c);
    }
  }

  lemma LowerConcat(a: string, b: string)
    ensures Lower(a + b) == Lower(a) + Lower(b)
  {
    assert forall i | 0 <= i < |a + b| :: Lower(a + b)[i] == (Lower(a) + Lower(b))[i];
  }

  /** Characters below 'A' and lower-case Latin letters: lowering leaves them alone. */
  predicate Plain(s: string)
  {
    forall i | 0 <= i < |s| :: s[i] < 'A' || 'a' <= s[i] <= 'z'
  }

  lemma LowerOfPlain(s: string)
    requires Plain(s)
    ensures Lower(s) == s
  {
    forall i | 0 <= i < |s| ensures Lower(s)[i] == s[i] {
      var c := s[i];
      assert c as int < 'A' as int || 'z' as int >= c as int > 'Z' as int;
    }
  }

  /** Lowering never produces a character below 'A' from a different one. */
  lemma LowerKeepsLow(c: char)
    requires LowerChar(c) < 'A'
    ensures c == LowerChar(c)
  {
  }

  function TrimLeft(s: string): (r: string)
    ensures |r| <= |s|
    ensures |r| == |s| ==> r == s
    ensures |r| < |s| ==> r == s[|s| - |r|..]
    ensures r == [] || !IsSpace(r[0])
  {
    if s != [] && IsSpace(s[0]) then TrimLeft(s[1..]) else s
  }

  function TrimRight(s: string): (r: string)
    ensures |r| <= |s| && r == s[..|r|]
    ensures r == [] || !IsSpace(r[|r| - 1])
  {
    if s != [] && IsSpace(s[|s| - 1]) then TrimRight(s[..|s| - 1]) else s
  }

  /** `s.strip()`. */
  function Strip(s: string): string
  {
    TrimRight(TrimLeft(s))
  }

  /** Decimal digits, with single underscores allowed between two digits: "1_000". */
  predicate DigitGroups(t: string)
    decreases |t|
  {
    t != [] && IsDigit(t[0]) &&
    (|t| == 1 || if t[1] == '_' then DigitGroups(t[2..]) else DigitGroups(t[1..]))
  }

  /** The digits of a digit group text, its underscores dropped. */
  function DropUnderscores(t: string): (r: string)
    requires forall i | 0 <= i < |t| :: IsDigit(t[i]) || t[i] == '_'
    ensures IsAllDigits(r) && |r| <= |t|
    ensures (exists i | 0 <= i < |t| :: IsDigit(t[i])) ==> r != []
  {
    if t == [] then []
    else
      var rest := DropUnderscores(t[1..]);
      assert forall i | 1 <= i < |t| :: t[1..][i - 1] == t[i];
      if t[0] == '_' then rest else [t[0]] + rest
  }

  /** A digit group text holds only digits and underscores, and at least one digit. */
  lemma {:induction false} DigitGroupsChars(t: string)
    requires DigitGroups(t)
    ensures forall i | 0 <= i < |t| :: IsDigit(t[i]) || t[i] == '_'
    decreases |t|
  {
    if |t| > 1 {
      var k := if t[1] == '_' then 2 else 1;
      DigitGroupsChars(t[k..]);
      assert forall i | k <= i < |t| :: t[i] == t[k..][i - k];
    }
  }

  /** The value of a digit group text: its digits read together. */
  function GroupsValue(t: string): nat
    requires DigitGroups(t)
  {
    DigitGroupsChars(t);
    DigitsToNat(DropUnderscores(t))
  }

  /**
   * Python `int(s)` on a string: surrounding whitespace, an optional sign,
   * then decimal digits, which single underscores may separate.
   */
  function ParseInt(s: string): (r: Option<int>)
  {
    var t := Strip(s);
    var signed := t != [] && (t[0] == '+' || t[0] == '-');
    var body := if signed then t[1..] else t;
    if DigitGroups(body) then
      var v: int := GroupsValue(body);
      Some(if signed && t[0] == '-' then -v else v)
    else None
  }

  /** Plain digits are a digit group text with nothing to drop. */
  lemma {:induction false} DropUnderscoresOfDigits(t: string)
    requires IsAllDigits(t)
    ensures DropUnderscores(t) == t
    decreases |t|
  {
    if t != [] {
      DropUnderscoresOfDigits(t[1..]);
    }
  }

  /** `int()` accepts underscores between digits: "0_5" reads as 5. */
  lemma ParseIntUnderscored()
    ensures ParseInt("0_5") == Some(5)
  {
    var t := "0_5";
    TrimOfDigits(t);
    assert DigitGroups(t);
    assert DropUnderscores(t[2..]) == "5";
    assert DropUnderscores(t[1..]) == "5";
    assert DropUnderscores(t) == "05";
    assert DigitsToNat("05") == 5 by {
      assert "05"[..1] == "0";
      assert DigitsToNat("0") == 0 by { assert "0"[..0] == ""; }
    }
  }

  /** An underscore that does not sit between two digits makes `int()` fail. */
  lemma MisplacedUnderscoreRefused(digits: string)
    requires digits != [] && IsAllDigits(digits)
    ensures ParseInt("_" + digits).None? && ParseInt(digits + "_").None? && ParseInt(digits + "__" + digits).None?
  {
    var a, b, c := "_" + digits, digits + "_", digits + "__" + digits;
    TrimOfBlanklessEnds(a);
    TrimOfBlanklessEnds(b);
    TrimOfBlanklessEnds(c);
    assert !DigitGroups(b) by {
      if DigitGroups(b) {
        GroupsEndInDigit(b);
      }
    }
    assert !DigitGroups(c) by {
      var k := |digits|;
      assert c[k] == '_' && c[k + 1] == '_';
      if DigitGroups(c) {
        GroupsNoDoubleUnderscore(c, k);
      }
    }
  }

  lemma TrimOfDigits(s: string)
    requires 1 <= |s| && !IsSpace(s[0]) && IsDigit(s[|s| - 1])
    ensures Strip(s) == s
  {
    var l := TrimLeft(s);
    assert l == s;
  }

  /** `int(str(i)) == i`. */
  lemma ParseIntRoundTrip(i: int)
    ensures ParseInt(IntToString(i)) == Some(i)
  {
    var s := IntToString(i);
    if i < 0 {
      var d := NatToString(-i);
      assert s == "-" + d && s[1..] == d;
      ParseSignedDigits(s);
    } else {
      ParseDigits(s);
    }
  }

  /** `int()` on a sign followed by digits reads the digits in base ten and applies the sign. */
  lemma ParseSignedDigits(s: string)
    requires |s| >= 2 && (s[0] == '+' || s[0] == '-') && IsAllDigits(s[1..])
    ensures ParseInt(s) == Some(if s[0] == '-' then -(DigitsToNat(s[1..]) as int) else DigitsToNat(s[1..]) as int)
  {
    assert IsDigit(s[1..][|s| - 2]);
    TrimOfDigits(s);
    PlainDigitGroups(s[1..]);
    ParseStrippedSigned(s, DigitsToNat(s[1..]));
  }

  /** `int()` on a stripped sign followed by digit groups applies the sign to their value. */
  lemma ParseStrippedSigned(s: string, v: nat)
    requires Strip(s) == s && |s| >= 2 && (s[0] == '+' || s[0] == '-')
    requires DigitGroups(s[1..]) && GroupsValue(s[1..]) == v
    ensures ParseInt(s) == Some(if s[0] == '-' then -(v as int) else v as int)
  {
  }

  /** Plain digits are a digit group text whose value is the digits' own. */
  lemma PlainDigitGroups(digits: string)
    requires digits != [] && IsAllDigits(digits)
    ensures DigitGroups(digits) && GroupsValue(digits) == DigitsToNat(digits)
  {
    DigitsAreGroups(digits);
    DropUnderscoresOfDigits(digits);
  }

  lemma {:induction false} DigitsAreGroups(t: string)
    requires t != [] && IsAllDigits(t)
    ensures DigitGroups(t)
    decreases |t|
  {
    if |t| > 1 {
      assert t[1] != '_' by { assert IsDigit(t[1]); }
      DigitsAreGroups(t[1..]);
    }
  }

  /** A digit group text ends in a digit. */
  lemma {:induction false} GroupsEndInDigit(t: string)
    requires DigitGroups(t)
    ensures IsDigit(t[|t| - 1])
    decreases |t|
  {
    if |t| > 1 {
      var k := if t[1] == '_' then 2 else 1;
      GroupsEndInDigit(t[k..]);
      assert t[k..][|t[k..]| - 1] == t[|t| - 1];
    }
  }

  /** In a digit group text an underscore is followed by a digit, never by another underscore. */
  lemma {:induction false} GroupsNoDoubleUnderscore(t: string, k: nat)
    requires DigitGroups(t) && k + 1 < |t| && t[k] == '_'
    ensures IsDigit(t[k + 1])
    decreases |t|
  {
    if k == 0 {
    } else if t[1] == '_' {
      if k == 1 {
        assert IsDigit(t[2..][0]);
      } else {
        GroupsNoDoubleUnderscore(t[2..], k - 2);
      }
    } else {
      GroupsNoDoubleUnderscore(t[1..], k - 1);
    }
  }

  /** A text with a non-blank character at each end is left as it is by stripping. */
  lemma TrimOfBlanklessEnds(s: string)
    requires 1 <= |s| && !IsSpace(s[0]) && !IsSpace(s[|s| - 1])
    ensures Strip(s) == s
  {
    var l := TrimLeft(s);
    assert l == s;
  }

  /** `sep.join(parts)`. */
  function Join(sep: string, parts: seq<string>): string
  {
    if |parts| == 0 then ""
    else if |parts| == 1 then parts[0]
    else parts[0] + sep + Join(sep, parts[1..])
  }

  /** `s.split(sep)` for a one-character separator: the pieces between separators, empty ones included. */
  function Split(s: string, sep: char): (parts: seq<string>)
    ensures 1 <= |parts|
    ensures forall p | p in parts :: sep !in p
    ensures Join([sep], parts) == s
  {
    if s == [] then [""]
    else
      var rest := Split(s[1..], sep);
      if s[0] == sep then
        assert Join([sep], [""] + rest) == [sep] + Join([sep], rest) by {
          assert ([""] + rest)[1..] == rest;
        }
        [""] + rest
      else
        var r := [[s[0]] + rest[0]] + rest[1..];
        assert r[1..] == rest[1..];
        r
  }

  lemma {:induction false} SplitPrefix(a: string, t: string, sep: char)
    requires sep !in a
    ensures Split(a + t, sep) == [a + Split(t, sep)[0]] + Split(t, sep)[1..]
    decreases |a|
  {
    var x := Split(t, sep);
    if a == [] {
      assert a + t == t;
      assert a + x[0] == x[0];
      assert [x[0]] + x[1..] == x;
    } else {
      var s := a + t;
      assert s[0] == a[0] && s[1..] == a[1..] + t;
      SplitPrefix(a[1..], t, sep);
      var rest := Split(s[1..], sep);
      assert rest[0] == a[1..] + x[0] && rest[1..] == x[1..];
      assert [a[0]] + (a[1..] + x[0]) == a + x[0];
    }
  }

  /** Splitting undoes joining pieces free of the separator. */
  lemma {:induction false} SplitOfJoin(parts: seq<string>, sep: char)
    requires |parts| >= 1
    requires forall p | p in parts :: sep !in p
    ensures Split(Join([sep], parts), sep) == parts
    decreases |parts|
  {
    if |parts| == 1 {
      SplitPrefix(parts[0], [], sep);
      assert parts[0] + [] == parts[0];
      assert Split([], sep) == [""];
    } else {
      var tail := parts[1..];
      var rest := Join([sep], tail);
      var t := [sep] + rest;
      assert Join([sep], parts) == parts[0] + t;
      assert Split(rest, sep) == tail by {
        assert forall p | p in tail :: p in parts;
        SplitOfJoin(tail, sep);
      }
      assert Split(t, sep) == [""] + tail by {
        SplitSeparatorFirst(rest, sep);
      }
      assert sep !in parts[0];
      SplitPrefix(parts[0], t, sep);
      assert parts[0] + "" == parts[0];
      assert ([""] + tail)[0] == "" && ([""] + tail)[1..] == tail;
      assert [parts[0]] + tail == parts;
    }
  }

  lemma SplitWithoutSeparator(s: string, sep: char)
    requires sep !in s
    ensures Split(s, sep) == [s]
  {
    SplitPrefix(s, [], sep);
    assert s + [] == s;
    assert s + "" == s;
  }

  lemma SplitSeparatorFirst(rest: string, sep: char)
    ensures Split([sep] + rest, sep) == [""] + Split(rest, sep)
  {
    var t := [sep] + rest;
    assert t[0] == sep && t[1..] == rest;
  }

  /** `int(s)` on a non-empty string of digits is its value. */
  lemma ParseDigits(s: string)
    requires |s| >= 1 && IsAllDigits(s)
    ensures ParseInt(s) == Some(DigitsToNat(s) as int)
  {
    TrimOfDigits(s);
    PlainDigitGroups(s);
  }

  /** `s.split(sep, 1)` unpacked into two names: fails when `sep` does not occur. */
  function SplitOnce(s: string, sep: char): (r: Option<(string, string)>)
    ensures r.None? <==> sep !in s
    ensures r.Some? ==> sep !in r.value.0 && s == r.value.0 + [sep] + r.value.1
  {
    if s == [] then None
    else if s[0] == sep then Some(("", s[1..]))
    else
      match SplitOnce(s[1..], sep)
      case None => None
      case Some(p) => Some(([s[0]] + p.0, p.1))
  }

  /** `s.split()`: the maximal runs of non-blank characters, in order. */
  function Words(s: string): (ws: seq<string>)
    ensures forall w | w in ws :: w != [] && forall i | 0 <= i < |w| :: !IsSpace(w[i])
    ensures s != [] && !IsSpace(s[0]) ==> ws != [] && ws[0][0] == s[0]
  {
    if s == [] then []
    else
      var rest := Words(s[1..]);
      if IsSpace(s[0]) then rest
      else if s[1..] != [] && !IsSpace(s[1]) then [[s[0]] + rest[0]] + rest[1..]
      else [[s[0]]] + rest
  }

  /** Every character of a word of `s` is a character of `s`. */
  lemma {:induction false} WordsChars(s: string)
    ensures forall w, c | w in Words(s) && c in w :: c in s
  {
    if s != [] {
      WordsChars(s[1..]);
      var rest := Words(s[1..]);
      forall w, c | w in Words(s) && c in w ensures c in s {
        if !IsSpace(s[0]) && s[1..] != [] && !IsSpace(s[1]) {
          if w == [s[0]] + rest[0] {
            if c != s[0] {
              assert c in rest[0];
            }
          } else {
            assert w in rest[1..];
          }
        }
      }
    }
  }

  /** Every character of `sep.join(parts)` comes from the separator or from one of the parts. */
  lemma {:induction false} JoinChars(sep: string, parts: seq<string>)
    ensures forall c | c in Join(sep, parts) :: c in sep || exists p | p in parts :: c in p
  {
    if |parts| > 1 {
      JoinChars(sep, parts[1..]);
      forall c | c in Join(sep, parts) ensures c in sep || exists p | p in parts :: c in p {
        if c !in parts[0] && c !in sep {
          assert c in Join(sep, parts[1..]);
          var p :| p in parts[1..] && c in p;
          assert p in parts;
        }
      }
    } else if |parts| == 1 {
      assert parts[0] in parts;
    }
  }

  /**
   * Words separated by single spaces: every whitespace character is a
   * plain space standing between two non-blank characters.
   */
  predicate SingleSpaced(s: string)
  {
    forall i | 0 <= i < |s| && IsSpace(s[i]) :: s[i] == ' ' && 0 < i < |s| - 1 && !IsSpace(s[i + 1])
  }

  /** A word followed by nothing or by whitespace is the first word. */
  lemma {:induction false} WordsPrefix(w: string, t: string)
    requires w != [] && forall i | 0 <= i < |w| :: !IsSpace(w[i])
    requires t == [] || IsSpace(t[0])
    ensures Words(w + t) == [w] + Words(t)
    decreases |w|
  {
    var c, u := w[0], w[1..];
    assert w + t == [c] + (u + t);
    if |w| == 1 {
      assert u + t == t;
      WordsSingle(c, t);
    } else {
      WordsPrefix(u, t);
      var ws := [u] + Words(t);
      assert ws[0] == u && ws[1..] == Words(t);
      WordsCons(c, u + t);
      assert [c] + u == w;
    }
  }

  /** A non-blank character before a blank or nothing is a word of its own. */
  lemma WordsSingle(c: char, t: string)
    requires !IsSpace(c) && (t == [] || IsSpace(t[0]))
    ensures Words([c] + t) == [[c]] + Words(t)
  {
    assert ([c] + t)[1..] == t;
  }

  /** A non-blank character before a non-blank one joins the first word. */
  lemma WordsCons(c: char, u: string)
    requires !IsSpace(c) && u != [] && !IsSpace(u[0])
    ensures Words([c] + u) == [[c] + Words(u)[0]] + Words(u)[1..]
  {
    assert ([c] + u)[1..] == u;
  }

  /** `split()` undoes `' '.join` of non-empty blank-free words. */
  lemma {:induction false} WordsOfJoin(ws: seq<string>)
    requires forall w | w in ws :: w != [] && forall i | 0 <= i < |w| :: !IsSpace(w[i])
    ensures Words(Join(" ", ws)) == ws
    decreases |ws|
  {
    if |ws| == 1 {
      assert ws[0] in ws;
      WordsPrefix(ws[0], []);
      assert ws[0] + [] == ws[0];
    } else if |ws| > 1 {
      var rest := Join(" ", ws[1..]);
      assert forall w | w in ws[1..] :: w in ws;
      WordsOfJoin(ws[1..]);
      assert ws[0] in ws;
      assert Join(" ", ws) == ws[0] + " " + rest;
      WordsAfterSpace(ws[0], rest);
      HeadThenTail(ws);
    }
  }

  /** A non-empty sequence is its head followed by its tail. */
  lemma HeadThenTail<T>(s: seq<T>)
    requires s != []
    ensures [s[0]] + s[1..] == s
  {
  }

  /** `' '.join` of non-empty blank-free words is single-spaced. */
  lemma {:induction false} JoinIsSingleSpaced(ws: seq<string>)
    requires forall w | w in ws :: w != [] && forall i | 0 <= i < |w| :: !IsSpace(w[i])
    ensures SingleSpaced(Join(" ", ws))
    decreases |ws|
  {
    if |ws| == 1 {
      assert ws[0] in ws;
    } else if |ws| > 1 {
      var w, rest := ws[0], Join(" ", ws[1..]);
      assert w in ws;
      assert forall v | v in ws[1..] :: v in ws;
      JoinIsSingleSpaced(ws[1..]);
      assert ws[1] in ws[1..];
      assert ws[1..][1..] == ws[2..];
      assert rest != [] && !IsSpace(rest[0]) by {
        if |ws| == 2 {
          assert rest == ws[1];
        } else {
          assert rest == ws[1] + " " + Join(" ", ws[2..]);
          assert rest[0] == ws[1][0];
        }
      }
      var s := w + " " + rest;
      assert forall i | 0 <= i < |w| :: s[i] == w[i];
      forall i | 0 <= i < |s| && IsSpace(s[i])
        ensures s[i] == ' ' && 0 < i < |s| - 1 && !IsSpace(s[i + 1])
      {
        if i > |w| {
          assert s[i] == rest[i - |w| - 1];
          assert i + 1 < |s| ==> s[i + 1] == rest[i - |w|];
        }
      }
    }
  }

  /** A single-spaced text is the `' '.join` of its words. */
  lemma {:induction false} JoinOfWords(s: string)
    requires SingleSpaced(s)
    ensures Join(" ", Words(s)) == s
    decreases |s|
  {
    if s != [] {
      assert !IsSpace(s[0]);
      if exists j | 0 <= j < |s| :: IsSpace(s[j]) {
        var k := FirstSpace(s);
        var w, rest := s[..k], s[k + 1..];
        WordsAtFirstSpace(s, k);
        JoinOfWords(rest);
        JoinCons(w, Words(rest));
      } else {
        WordsPrefix(s, []);
        assert s + [] == s;
      }
    }
  }

  lemma JoinCons(w: string, tail: seq<string>)
    requires tail != []
    ensures Join(" ", [w] + tail) == w + " " + Join(" ", tail)
  {
    var parts := [w] + tail;
    assert parts[0] == w && parts[1..] == tail;
  }

  /** Cutting a single-spaced text at its first space: the first word, then single-spaced words. */
  lemma WordsAtFirstSpace(s: string, k: nat)
    requires SingleSpaced(s) && k < |s| && IsSpace(s[k])
    requires forall i | 0 <= i < k :: !IsSpace(s[i])
    ensures var rest := s[k + 1..];
            SingleSpaced(rest) && rest != [] && Words(rest) != [] &&
            Words(s) == [s[..k]] + Words(rest) && s == s[..k] + " " + rest
  {
    var w, rest := s[..k], s[k + 1..];
    SpacedTail(s, k);
    assert s == w + " " + rest;
    WordsAfterSpace(w, rest);
  }

  /** What follows a space of a single-spaced text is single-spaced and starts a word. */
  lemma SpacedTail(s: string, k: nat)
    requires SingleSpaced(s) && k < |s| && IsSpace(s[k])
    ensures k + 1 < |s| && !IsSpace(s[k + 1]) && SingleSpaced(s[k + 1..])
  {
    var rest := s[k + 1..];
    forall i | 0 <= i < |rest| && IsSpace(rest[i])
      ensures rest[i] == ' ' && 0 < i < |rest| - 1 && !IsSpace(rest[i + 1])
    {
      assert rest[i] == s[k + 1 + i];
      assert i + 1 < |rest| ==> rest[i + 1] == s[k + 2 + i];
    }
  }

  /** A word, one space, then the rest: the word comes first among the words. */
  lemma WordsAfterSpace(w: string, rest: string)
    requires w != [] && forall i | 0 <= i < |w| :: !IsSpace(w[i])
    ensures Words(w + " " + rest) == [w] + Words(rest)
  {
    var tail := " " + rest;
    assert tail[1..] == rest;
    assert Words(tail) == Words(rest);
    WordsPrefix(w, tail);
    assert w + " " + rest == w + tail;
  }

  /** The position of the first whitespace character of `s`. */
  function FirstSpace(s: string): (k: nat)
    requires exists k | 0 <= k < |s| :: IsSpace(s[k])
    ensures k < |s| && IsSpace(s[k])
    ensures forall i | 0 <= i < k :: !IsSpace(s[i])
  {
    if IsSpace(s[0]) then 0
    else
      assert exists k | 0 <= k < |s[1..]| :: IsSpace(s[1..][k]) by {
        var k :| 0 <= k < |s| && IsSpace(s[k]);
        assert s[1..][k - 1] == s[k];
      }
      1 + FirstSpace(s[1..])
  }

  predicate StartsWith(s: string, prefix: string)
  {
    |prefix| <= |s| && s[..|prefix|] == prefix
  }

  /** `sub` occurs in `s` starting at index `i`. */
  predicate OccursAt(s: string, sub: string, i: int)
  {
    0 <= i && i + |sub| <= |s| && s[i..i + |sub|] == sub
  }

  /** A text framed by `a` and `c` starts with `a` and holds `b` right after it. */
  lemma Framed(a: string, b: string, c: string)
    ensures StartsWith(a + b + c, a) && OccursAt(a + b + c, b, |a|)
    ensures a != [] ==> (a + b + c)[0] == a[0]
  {
    assert (a + b + c)[..|a|] == a;
    assert (a + b + c)[|a|..|a| + |b|] == b;
  }

  /** Python `sub in s`. */
  function Contains(s: string, sub: string): (b: bool)
    ensures b <==> exists i :: OccursAt(s, sub, i)
    decreases |s|
  {
    if |sub| > |s| then false
    else if s[..|sub|] == sub then
      assert OccursAt(s, sub, 0);
      true
    else
      var b := Contains(s[1..], sub);
      if b then
        var i :| OccursAt(s[1..], sub, i);
        assert s[i + 1..i + 1 + |sub|] == s[1..][i..i + |sub|];
        assert OccursAt(s, sub, i + 1);
        true
      else
        OccursShift(s, sub);
        false
  }

  /** An occurrence past the first character is an occurrence in the tail. */
  lemma OccursShift(s: string, sub: string)
    requires s != []
    ensures forall i | 0 < i && OccursAt(s, sub, i) :: OccursAt(s[1..], sub, i - 1)
  {
    forall i | 0 < i && OccursAt(s, sub, i) ensures OccursAt(s[1..], sub, i - 1) {
      forall k | 0 <= k < |sub| ensures s[1..][i - 1..i - 1 + |sub|][k] == sub[k] {
        assert s[i..i + |sub|][k] == sub[k];
      }
    }
  }
}

/**
 * Python list slicing with integer bounds that may be negative or beyond
 * the end, and the stable sort with `reverse=True` that the bot applies to
 * tuple keys. Keys are sequences of reals compared lexicographically, which
 * is how Python compares tuples of numbers and strings of code points.
 */
module Slices {
  import opened Wrappers

  /** `random.choice(xs)` with the random draw given as an index. */
  function Pick<T>(xs: seq<T>, k: nat): (x: T)
    requires |xs| > 0
    ensures x in xs
  {
    xs[k % |xs|]
  }

  /** `[x for x in options if x not in shown]`. */
  function Unused<T(==,!new)>(options: seq<T>, shown: seq<T>): (r: seq<T>)
    ensures forall t :: t in r <==> t in options && t !in shown
  {
    if options == [] then []
    else (if options[0] in shown then [] else [options[0]]) + Unused(options[1..], shown)
  }

  /** The values of the present options, in order. */
  function Present<T>(opts: seq<Option<T>>): (r: seq<T>)
    ensures |r| <= |opts|
    ensures r == [] <==> forall i | 0 <= i < |opts| :: opts[i].None?
    decreases |opts|
  {
    if opts == [] then []
    else
      var n := |opts| - 1;
      var init := Present(opts[..n]);
      assert forall i | 0 <= i < n :: opts[..n][i] == opts[i];
      if opts[n].Some? then init + [opts[n].value] else init
  }

  /** The positions of the present options, in order. */
  function PresentIndices<T>(opts: seq<Option<T>>): (idx: seq<nat>)
    ensures forall k | 0 <= k < |idx| :: idx[k] < |opts|
    decreases |opts|
  {
    if opts == [] then []
    else
      var n := |opts| - 1;
      var init := PresentIndices(opts[..n]);
      if opts[n].Some? then init + [n] else init
  }

  /** Every present value is kept. */
  lemma {:induction false} PresentMembers<T>(opts: seq<Option<T>>, i: int)
    requires 0 <= i < |opts| && opts[i].Some?
    ensures opts[i].value in Present(opts)
    decreases |opts|
  {
    var n := |opts| - 1;
    if i < n {
      assert opts[..n][i] == opts[i];
      PresentMembers(opts[..n], i);
    }
  }

  /** The positions strictly increase, and a position is listed exactly when its option is present. */
  lemma {:induction false} PresentIndicesExact<T>(opts: seq<Option<T>>)
    ensures var idx := PresentIndices(opts);
            (forall k, l | 0 <= k < l < |idx| :: idx[k] < idx[l]) &&
            (forall i | 0 <= i < |opts| :: i in idx <==> opts[i].Some?)
    decreases |opts|
  {
    if opts != [] {
      var n := |opts| - 1;
      PresentIndicesExact(opts[..n]);
      assert forall i | 0 <= i < n :: opts[..n][i] == opts[i];
    }
  }

  /** The k-th kept value is the value of the option at the k-th listed position. */
  lemma {:induction false} PresentExact<T>(opts: seq<Option<T>>)
    ensures var r := Present(opts);
            var idx := PresentIndices(opts);
            |r| == |idx| &&
            forall k | 0 <= k < |idx| :: opts[idx[k]].Some? && r[k] == opts[idx[k]].value
    decreases |opts|
  {
    if opts != [] {
      var n := |opts| - 1;
      var pre := opts[..n];
      PresentExact(pre);
      var r0, idx0 := Present(pre), PresentIndices(pre);
      var r := if opts[n].Some? then r0 + [opts[n].value] else r0;
      var idx := if opts[n].Some? then idx0 + [n] else idx0;
      assert Present(opts) == r && PresentIndices(opts) == idx;
      forall k | 0 <= k < |idx|
        ensures opts[idx[k]].Some? && r[k] == opts[idx[k]].value
      {
        if k < |idx0| {
          assert idx[k] == idx0[k] && r[k] == r0[k];
          assert pre[idx0[k]] == opts[idx0[k]];
        }
      }
    }
  }

  /** Keeping the present values from the front: the first option's value, then the rest's. */
  lemma {:induction false} PresentCons<T>(o: Option<T>, rest: seq<Option<T>>)
    ensures Present([o] + rest) == (if o.Some? then [o.value] else []) + Present(rest)
    decreases |rest|
  {
    var opts := [o] + rest;
    if rest != [] {
      var n := |rest| - 1;
      assert opts[..|opts| - 1] == [o] + rest[..n];
      assert opts[|opts| - 1] == rest[n];
      PresentCons(o, rest[..n]);
    } else {
      assert opts[..0] == [];
    }
  }

  /** `s[:n]` in Python. */
  function SliceTo<T>(s: seq<T>, n: int): (r: seq<T>)
    ensures n >= 0 ==> |r| == if n < |s| then n else |s|
    ensures n < 0 ==> |r| == if |s| + n > 0 then |s| + n else 0
    ensures r == s[..|r|]
  {
    if n >= 0 then (if n < |s| then s[..n] else s)
    else if |s| + n > 0 then s[..|s| + n] else []
  }

  /** `s[n:]` in Python. */
  function SliceFrom<T>(s: seq<T>, n: int): (r: seq<T>)
    ensures n >= 0 ==> |r| == if n < |s| then |s| - n else 0
    ensures n < 0 ==> |r| == if -n < |s| then -n else |s|
    ensures r == s[|s| - |r|..]
  {
    if n >= 0 then (if n < |s| then s[n..] else [])
    else if -n < |s| then s[|s| + n..] else s
  }

  /** Strict lexicographic order on keys; a proper prefix comes first. */
  predicate KeyLess(a: seq<real>, b: seq<real>)
    decreases |a|
  {
    if b == [] then false
    else if a == [] then true
    else if a[0] != b[0] then a[0] < b[0]
    else KeyLess(a[1..], b[1..])
  }

  lemma {:induction false} KeyLessIrreflexive(a: seq<real>)
    ensures !KeyLess(a, a)
    decreases |a|
  {
    if a != [] { KeyLessIrreflexive(a[1..]); }
  }

  lemma {:induction false} KeyLessTransitive(a: seq<real>, b: seq<real>, c: seq<real>)
    requires KeyLess(a, b) && KeyLess(b, c)
    ensures KeyLess(a, c)
    decreases |a|
  {
    if a != [] && a[0] == b[0] && b[0] == c[0] {
      KeyLessTransitive(a[1..], b[1..], c[1..]);
    }
  }

  lemma {:induction false} KeyLessTotal(a: seq<real>, b: seq<real>)
    ensures a == b || KeyLess(a, b) || KeyLess(b, a)
    decreases |a|
  {
    if a != [] && b != [] && a[0] == b[0] {
      KeyLessTotal(a[1..], b[1..]);
      if a[1..] == b[1..] {
        assert a == [a[0]] + a[1..] && b == [b[0]] + b[1..];
      }
    }
  }

  /** No element is followed by one with a strictly larger key. */
  predicate SortedDesc<T>(s: seq<T>, key: T -> seq<real>)
  {
    forall i, j | 0 <= i < j < |s| :: !KeyLess(key(s[i]), key(s[j]))
  }

  /** Inserts `x` after every element whose key is not smaller than its own. */
  function InsertDesc<T>(x: T, s: seq<T>, key: T -> seq<real>): (r: seq<T>)
    requires SortedDesc(s, key)
    ensures multiset(r) == multiset(s) + multiset{x}
    ensures SortedDesc(r, key)
  {
    if s == [] then [x]
    else if KeyLess(key(s[0]), key(x)) then
      var r := [x] + s;
      forall j | 1 <= j < |r| ensures !KeyLess(key(x), key(r[j])) {
        if KeyLess(key(x), key(r[j])) {
          KeyLessTransitive(key(s[0]), key(x), key(r[j]));
          if j == 1 { KeyLessIrreflexive(key(s[0])); }
        }
      }
      r
    else
      var tail := InsertDesc(x, s[1..], key);
      var r := [s[0]] + tail;
      assert s == [s[0]] + s[1..];
      forall j | 1 <= j < |r| ensures !KeyLess(key(s[0]), key(r[j])) {
        assert r[j] in multiset(tail);
        assert r[j] in multiset(s[1..]) || r[j] == x;
        if r[j] != x {
          var k :| 0 <= k < |s[1..]| && s[1..][k] == r[j];
          assert s[k + 1] == r[j];
        }
      }
      r
  }

  /**
   * `sorted(s, key=key, reverse=True)`: Python's stable sort with the
   * comparison reversed, built by inserting each element after its equals.
   */
  function SortDesc<T>(s: seq<T>, key: T -> seq<real>): (r: seq<T>)
    ensures multiset(r) == multiset(s)
    ensures |r| == |s|
    ensures SortedDesc(r, key)
  {
    if s == [] then []
    else
      assert s == s[..|s| - 1] + [s[|s| - 1]];
      var r := InsertDesc(s[|s| - 1], SortDesc(s[..|s| - 1], key), key);
      assert |r| == |multiset(r)|;
      r
  }

  /** Inserting an element whose key is not above any key of `s` puts it last. */
  lemma {:induction false} InsertDescAtEnd<T>(x: T, s: seq<T>, key: T -> seq<real>)
    requires SortedDesc(s, key)
    requires forall i | 0 <= i < |s| :: !KeyLess(key(s[i]), key(x))
    ensures InsertDesc(x, s, key) == s + [x]
    decreases |s|
  {
    if s != [] {
      assert !KeyLess(key(s[0]), key(x));
      assert SortedDesc(s[1..], key) by {
        forall i, j | 0 <= i < j < |s[1..]| ensures !KeyLess(key(s[1..][i]), key(s[1..][j])) {
          assert s[1..][i] == s[i + 1] && s[1..][j] == s[j + 1];
        }
      }
      InsertDescAtEnd(x, s[1..], key);
      assert s == [s[0]] + s[1..];
    }
  }

  /** The sort is stable: a sequence already in order comes back unchanged. */
  lemma {:induction false} SortDescOfSorted<T>(s: seq<T>, key: T -> seq<real>)
    requires SortedDesc(s, key)
    ensures SortDesc(s, key) == s
    decreases |s|
  {
    if s != [] {
      var init := s[..|s| - 1];
      var x := s[|s| - 1];
      assert s == init + [x];
      SortedDescSplit(init, x, key);
      SortDescOfSorted(init, key);
      InsertDescAtEnd(x, init, key);
      SortDescSnoc(init, x, key);
    }
  }

  /** In a sorted `init + [x]`, `init` is sorted and no key in it is below `x`'s. */
  lemma SortedDescSplit<T>(init: seq<T>, x: T, key: T -> seq<real>)
    requires SortedDesc(init + [x], key)
    ensures SortedDesc(init, key)
    ensures forall i | 0 <= i < |init| :: !KeyLess(key(init[i]), key(x))
  {
    var s := init + [x];
    forall i, j | 0 <= i < j < |init| ensures !KeyLess(key(init[i]), key(init[j])) {
      assert init[i] == s[i] && init[j] == s[j];
    }
    forall i | 0 <= i < |init| ensures !KeyLess(key(init[i]), key(x)) {
      assert init[i] == s[i] && x == s[|init|];
    }
  }

  /** One step of the sort: the last element inserted into the sorted rest. */
  lemma SortDescSnoc<T>(init: seq<T>, x: T, key: T -> seq<real>)
    ensures SortDesc(init + [x], key) == InsertDesc(x, SortDesc(init, key), key)
  {
    var s := init + [x];
    assert s[..|s| - 1] == init && s[|s| - 1] == x;
  }

  /** Every member of a permutation of `s` is a member of `s`. */
  lemma SortedMember<T>(s: seq<T>, key: T -> seq<real>, x: T)
    ensures x in SortDesc(s, key) <==> x in s
  {
    var r := SortDesc(s, key);
    assert x in r <==> x in multiset(r);
    assert x in s <==> x in multiset(s);
  }
}

/**
 * Python dictionaries as their item lists in insertion order: lookup,
 * keys, and assignment `d[key] = value`, which keeps an existing key in
 * its place and puts a new one last.
 */
module Dicts {
  import opened Wrappers

  /** A set is empty exactly when nothing is in it; lets a loop pick a member of a non-empty set. */
  lemma EmptyWhenNoMember(s: set<int>)
    ensures s == {} <==> forall x :: x !in s
  {
    if forall x :: x !in s {
      assert s == {};
    }
  }

  predicate DistinctKeys<K(==), V>(items: seq<(K, V)>)
  {
    forall i, j | 0 <= i < j < |items| :: items[i].0 != items[j].0
  }

  /** `d.get(key)`. */
  function Lookup<K(==), V>(items: seq<(K, V)>, key: K): (r: Option<V>)
    ensures r.Some? <==> exists i | 0 <= i < |items| :: items[i].0 == key
    ensures r.Some? ==> (key, r.value) in items
  {
    if items == [] then None
    else if items[0].0 == key then Some(items[0].1)
    else
      var r := Lookup(items[1..], key);
      assert forall i | 1 <= i < |items| :: items[i] == items[1..][i - 1];
      r
  }

  /** `list(d.keys())`. */
  function Keys<K, V>(items: seq<(K, V)>): (ks: seq<K>)
    ensures |ks| == |items|
    ensures forall i | 0 <= i < |items| :: ks[i] == items[i].0
  {
    if items == [] then [] else [items[0].0] + Keys(items[1..])
  }

  /** `d[key] = value`. */
  function SetItem<K(==,!new), V>(items: seq<(K, V)>, key: K, value: V): (r: seq<(K, V)>)
    requires DistinctKeys(items)
    ensures DistinctKeys(r)
    ensures Lookup(r, key) == Some(value)
    ensures forall k | k != key :: Lookup(r, k) == Lookup(items, k)
    ensures |r| == if Lookup(items, key).Some? then |items| else |items| + 1
  {
    if items == [] then [(key, value)]
    else if items[0].0 == key then [(key, value)] + items[1..]
    else
      var tail := SetItem(items[1..], key, value);
      var r := [items[0]] + tail;
      forall k | k != key ensures Lookup(r, k) == Lookup(items, k) {
        if k != items[0].0 {
          assert Lookup(r, k) == Lookup(tail, k);
        }
      }
      forall i, j | 0 <= i < j < |r| ensures r[i].0 != r[j].0 {
        if i == 0 {
          assert r[j] in tail;
          assert Lookup(tail, r[j].0).Some?;
        }
      }
      r
  }

  /** Storing a second value under the same key replaces the first. */
  lemma UpdateTwice<K, V>(m: map<K, V>, k: K, a: V, b: V)
    ensures m[k := a][k := b] == m[k := b]
  {
  }
}
