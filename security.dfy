/**
 * The static security helpers of the top-level bot: input screening by
 * case-insensitive patterns, tag stripping followed by HTML escaping, the
 * `DD.MM.YYYY` date check, and a rate limit whose request times live in the
 * user's stored record under a key made of the action and the window.
 */
module Security {
  import opened Wrappers
  import opened Strings
  import opened RateWindow
  import AppSecurity
  import RootStorage
  import Dicts

  const DefaultMaxLength: int := 1000
  const DefaultLimit: int := 10
  /** Seconds. */
  const DefaultWindow: int := 60

  // ---------------------------------------------------------------------
  // validate_user_input
  // ---------------------------------------------------------------------

  /**
   * `<script.*?>.*?</script>` matches somewhere in `s`: an opening
   * `<script`, a later `>`, and a later `</script>`, with no newline in
   * between (`.` does not match a newline).
   */
  predicate ScriptElement(s: string)
  {
    exists i, j, k | 0 <= i < j < k < |s| ::
      OccursAt(s, "<script", i) && i + 7 <= j && s[j] == '>' && OccursAt(s, "</script>", k) && '\n' !in s[i..k]
  }

  /** `name\s*=` matches somewhere in `s`. */
  predicate Handler(s: string, name: string)
  {
    exists i | 0 <= i < |s| :: OccursAt(s, name, i) && StartsWith(TrimLeft(s[i + |name|..]), "=")
  }

  /** One of the seven suspicious patterns matches the lower-cased text `low`. */
  predicate SuspiciousPattern(low: string)
  {
    ScriptElement(low) || Contains(low, "javascript:") || Contains(low, "data:text/html") ||
    Contains(low, "vbscript:") || Handler(low, "onload") || Handler(low, "onerror") || Handler(low, "onclick")
  }

  /**
   * `validate_user_input(text, max_length)`: refused when empty, longer
   * than `maxLength`, or when a pattern matches ignoring case.
   */
  function ValidateUserInput(text: string, maxLength: int): (ok: bool)
    ensures ok ==> 0 < |text| <= maxLength
  {
    text != [] && |text| <= maxLength && !SuspiciousPattern(Lower(text))
  }

  /** Screening ignores case: a text and its lower-case form are judged alike. */
  lemma ValidateIgnoresCase(text: string, maxLength: int)
    ensures ValidateUserInput(Lower(text), maxLength) == ValidateUserInput(text, maxLength)
  {
    LowerIdempotent(text);
  }

  lemma LowerPlainPrefix(p: string, rest: string)
    requires Plain(p)
    ensures Lower(p + rest) == p + Lower(rest)
  {
    LowerConcat(p, rest);
    LowerOfPlain(p);
  }

  /** Lowering keeps newlines where they were and makes none. */
  lemma LowerNewlines(s: string)
    ensures '\n' in Lower(s) <==> '\n' in s
  {
    var low := Lower(s);
    forall q | 0 <= q < |s| ensures low[q] == '\n' <==> s[q] == '\n' {
      if low[q] == '\n' {
        LowerKeepsLow(s[q]);
      }
    }
  }

  lemma ScriptAt(low: string, i: int, k: int)
    requires 0 <= i && i + 8 <= k && k + 9 <= |low|
    requires low[i..i + 8] == "<script>" && low[k..k + 9] == "</script>" && '\n' !in low[i..k]
    ensures ScriptElement(low)
  {
    assert forall t | 0 <= t < 7 :: low[i + t] == low[i..i + 8][t] == "<script"[t];
    assert OccursAt(low, "<script", i);
    assert low[i + 7] == low[i..i + 8][7];
    assert OccursAt(low, "</script>", k);
  }

  /** A text with a plain (already lower-case) piece in the middle lowers around it. */
  lemma LowerAround(before: string, p: string, after: string)
    requires Plain(p)
    ensures Lower(before + p + after) == Lower(before) + p + Lower(after)
  {
    assert before + p + after == before + (p + after);
    LowerConcat(before, p + after);
    LowerPlainPrefix(p, after);
  }

  /** Any matching pattern in the lowered text refuses it. */
  lemma RefusedWhenSuspicious(text: string, maxLength: int)
    requires SuspiciousPattern(Lower(text))
    ensures !ValidateUserInput(text, maxLength)
  {
  }

  lemma ScriptInside(b: string, body: string, a: string)
    requires '\n' !in body
    ensures ScriptElement(b + "<script>" + (body + "</script>" + a))
  {
    var low := b + "<script>" + (body + "</script>" + a);
    var i := |b|;
    var k := i + 8 + |body|;
    assert low[i..i + 8] == "<script>";
    assert low[k..k + 9] == "</script>";
    assert low[i..k] == "<script>" + body;
    ScriptAt(low, i, k);
  }

  /** A script element on one line, in any case, is refused. */
  lemma ScriptElementRefused(before: string, body: string, after: string, maxLength: int)
    requires '\n' !in body
    ensures !ValidateUserInput(before + "<script>" + body + "</script>" + after, maxLength)
  {
    var text := before + "<script>" + body + "</script>" + after;
    var mid := body + "</script>" + after;
    assert text == before + "<script>" + mid;
    assert Plain("<script>") && Plain("</script>");
    LowerAround(before, "<script>", mid);
    LowerAround(body, "</script>", after);
    LowerNewlines(body);
    ScriptInside(Lower(before), Lower(body), Lower(after));
    RefusedWhenSuspicious(text, maxLength);
  }

  /** Text holding `javascript:`, `data:text/html` or `vbscript:`, in any case, is refused. */
  lemma FragmentRefused(before: string, p: string, after: string, maxLength: int)
    requires p in ["javascript:", "data:text/html", "vbscript:"]
    ensures !ValidateUserInput(before + p + after, maxLength)
  {
    assert Plain(p);
    LowerAround(before, p, after);
    FragmentInside(Lower(before), p, Lower(after));
    RefusedWhenSuspicious(before + p + after, maxLength);
  }

  lemma FragmentInside(b: string, p: string, a: string)
    ensures Contains(b + p + a, p)
  {
    assert OccursAt(b + p + a, p, |b|) by {
      assert (b + p + a)[|b|..|b| + |p|] == p;
    }
  }

  /** An event handler assignment such as `onclick=`, in any case, is refused. */
  lemma HandlerRefused(before: string, name: string, after: string, maxLength: int)
    requires name in ["onload", "onerror", "onclick"]
    ensures !ValidateUserInput(before + name + "=" + after, maxLength)
  {
    var assign := name + "=";
    assert before + name + "=" + after == before + assign + after;
    assert Plain(assign);
    LowerAround(before, assign, after);
    HandlerInside(Lower(before), name, Lower(after));
    RefusedWhenSuspicious(before + assign + after, maxLength);
  }

  lemma HandlerInside(b: string, name: string, a: string)
    ensures Handler(b + (name + "=") + a, name)
  {
    var low := b + (name + "=") + a;
    var i := |b|;
    assert low[i..i + |name|] == name;
    assert low[i + |name|] == '=';
    HandlerAt(low, name, i);
  }

  lemma HandlerAt(low: string, name: string, i: int)
    requires OccursAt(low, name, i) && i + |name| < |low| && low[i + |name|] == '='
    ensures Handler(low, name)
  {
    var rest := low[i + |name|..];
    assert rest[0] == '=';
    assert TrimLeft(rest) == rest;
    assert StartsWith(TrimLeft(rest), "=");
  }

  lemma NoScriptWithoutOpen(low: string)
    requires '<' !in low
    ensures !ScriptElement(low)
  {
    forall i | 0 <= i < |low| ensures !OccursAt(low, "<script", i) {
      if i + 7 <= |low| {
        assert low[i..i + 7][0] == low[i];
      }
    }
  }

  lemma NoFragmentWithoutColon(low: string, p: string)
    requires ':' !in low && ':' in p
    ensures !Contains(low, p)
  {
    var q :| 0 <= q < |p| && p[q] == ':';
    forall i ensures !OccursAt(low, p, i) {
      if 0 <= i && i + |p| <= |low| {
        assert low[i..i + |p|][q] == low[i + q];
      }
    }
  }

  lemma NoHandlerWithoutAssign(low: string, name: string)
    requires '=' !in low
    ensures !Handler(low, name)
  {
    forall i | 0 <= i < |low| && OccursAt(low, name, i)
      ensures !StartsWith(TrimLeft(low[i + |name|..]), "=")
    {
      NoAssignAfterTrim(low[i + |name|..]);
    }
  }

  lemma NoAssignAfterTrim(rest: string)
    requires '=' !in rest
    ensures !StartsWith(TrimLeft(rest), "=")
  {
    var t := TrimLeft(rest);
    if t != [] {
      var q := |rest| - |t|;
      assert t[0] == rest[q];
      assert t[..1] == [rest[q]];
      assert rest[q] != '=';
    }
  }

  /** A non-empty text within the length limit without '<', ':' or '=' is accepted. */
  lemma SafeTextAccepted(text: string, maxLength: int)
    requires 0 < |text| <= maxLength
    requires '<' !in text && ':' !in text && '=' !in text
    ensures ValidateUserInput(text, maxLength)
  {
    var low := Lower(text);
    assert '<' !in low && ':' !in low && '=' !in low by {
      forall i | 0 <= i < |low| ensures low[i] != '<' && low[i] != ':' && low[i] != '=' {
        if low[i] < 'A' {
          LowerKeepsLow(text[i]);
        }
      }
    }
    NoScriptWithoutOpen(low);
    NoFragmentWithoutColon(low, "javascript:");
    NoFragmentWithoutColon(low, "data:text/html");
    NoFragmentWithoutColon(low, "vbscript:");
    NoHandlerWithoutAssign(low, "onload");
    NoHandlerWithoutAssign(low, "onerror");
    NoHandlerWithoutAssign(low, "onclick");
  }

  // ---------------------------------------------------------------------
  // sanitize_text
  // ---------------------------------------------------------------------

  /** The position of the first '>' in `s`, if any. */
  function FirstClose(s: string): (r: Option<nat>)
    ensures r.Some? ==> r.value < |s| && s[r.value] == '>' && '>' !in s[..r.value]
    ensures r.None? ==> '>' !in s
  {
    if s == [] then None
    else if s[0] == '>' then Some(0)
    else match FirstClose(s[1..]) {
      case None => None
      case Some(k) =>
        assert s[..k + 1] == [s[0]] + s[1..][..k];
        Some(k + 1)
    }
  }

  /**
   * `re.sub(r'<[^>]+>', '', s)`, scanning left to right: a '<' followed by
   * at least one character other than '>' and then a '>' is removed together
   * with them; any other character is kept.
   */
  function StripTags(s: string): (r: string)
    ensures |r| <= |s|
    decreases |s|
  {
    if s == [] then []
    else if s[0] == '<' && FirstClose(s[1..]).Some? && FirstClose(s[1..]).value > 0 then
      StripTags(s[FirstClose(s[1..]).value + 2..])
    else [s[0]] + StripTags(s[1..])
  }

  /** Text without '<' holds no tag and is kept as it is. */
  lemma {:induction false} StripTagsOfPlain(s: string)
    requires '<' !in s
    ensures StripTags(s) == s
  {
    if s != [] {
      StripTagsOfPlain(s[1..]);
    }
  }

  /** A whole tag at the start is removed, and stripping goes on after it. */
  lemma LeadingTag(t: string, b: string)
    requires t != [] && '>' !in t
    ensures StripTags("<" + t + ">" + b) == StripTags(b)
  {
    var s := "<" + t + ">" + b;
    var rest := s[1..];
    assert rest == t + ">" + b;
    assert rest[|t|] == '>' && rest[..|t|] == t;
    var f := FirstClose(rest);
    assert f == Some(|t|);
    assert s[|t| + 2..] == b;
  }

  /** A whole tag after tag-free text is removed, and stripping goes on after it. */
  lemma StripTagsRemovesTag(a: string, t: string, b: string)
    requires '<' !in a && t != [] && '>' !in t
    ensures StripTags(a + "<" + t + ">" + b) == a + StripTags(b)
  {
    var tag := "<" + t + ">" + b;
    assert a + "<" + t + ">" + b == a + tag;
    PlainPrefixKept(a, tag);
    LeadingTag(t, b);
  }

  /** Text without '<' in front of anything is kept as it is. */
  lemma {:induction false} PlainPrefixKept(a: string, rest: string)
    requires '<' !in a
    ensures StripTags(a + rest) == a + StripTags(rest)
  {
    if a != [] {
      StripStep(a, rest);
      PlainPrefixKept(a[1..], rest);
      assert a == [a[0]] + a[1..];
    } else {
      assert a + rest == rest;
    }
  }

  lemma StripStep(a: string, rest: string)
    requires a != [] && a[0] != '<'
    ensures StripTags(a + rest) == [a[0]] + StripTags(a[1..] + rest)
  {
    assert (a + rest)[0] == a[0];
    assert (a + rest)[1..] == a[1..] + rest;
  }

  /** `s.replace(c, by)` for a single character `c`. */
  function Replace(s: string, c: char, repl: string): (r: string)
    ensures c !in s ==> r == s
  {
    if s == [] then [] else (if s[0] == c then repl else [s[0]]) + Replace(s[1..], c, repl)
  }

  lemma {:induction false} ReplaceConcat(a: string, b: string, c: char, repl: string)
    ensures Replace(a + b, c, repl) == Replace(a, c, repl) + Replace(b, c, repl)
  {
    if a != [] {
      assert (a + b)[1..] == a[1..] + b;
      ReplaceConcat(a[1..], b, c, repl);
    } else {
      assert a + b == b;
    }
  }

  /** The five replacements of `sanitize_text`, in their order. */
  function EscapeChain(s: string): string
  {
    Replace(Replace(Replace(Replace(Replace(s, '&', "&amp;"), '<', "&lt;"), '>', "&gt;"), '"', "&quot;"), '\'', "&#x27;")
  }

  lemma ChainConcat(a: string, b: string)
    ensures EscapeChain(a + b) == EscapeChain(a) + EscapeChain(b)
  {
    var a1, b1 := Replace(a, '&', "&amp;"), Replace(b, '&', "&amp;");
    ReplaceConcat(a, b, '&', "&amp;");
    var a2, b2 := Replace(a1, '<', "&lt;"), Replace(b1, '<', "&lt;");
    ReplaceConcat(a1, b1, '<', "&lt;");
    var a3, b3 := Replace(a2, '>', "&gt;"), Replace(b2, '>', "&gt;");
    ReplaceConcat(a2, b2, '>', "&gt;");
    var a4, b4 := Replace(a3, '"', "&quot;"), Replace(b3, '"', "&quot;");
    ReplaceConcat(a3, b3, '"', "&quot;");
    ReplaceConcat(a4, b4, '\'', "&#x27;");
  }

  lemma ChainOfChar(c: char)
    ensures EscapeChain([c]) == AppSecurity.EscapeChar(c)
  {
    ReplaceSingle(c, '&', "&amp;");
    if c == '&' {
      assert '<' !in "&amp;" && '>' !in "&amp;" && '"' !in "&amp;" && '\'' !in "&amp;";
      return;
    }
    ReplaceSingle(c, '<', "&lt;");
    if c == '<' {
      assert '>' !in "&lt;" && '"' !in "&lt;" && '\'' !in "&lt;";
      return;
    }
    ReplaceSingle(c, '>', "&gt;");
    if c == '>' {
      assert '"' !in "&gt;" && '\'' !in "&gt;";
      return;
    }
    ReplaceSingle(c, '"', "&quot;");
    if c == '"' {
      assert '\'' !in "&quot;";
      return;
    }
    ReplaceSingle(c, '\'', "&#x27;");
  }

  lemma ReplaceSingle(c: char, d: char, repl: string)
    ensures Replace([c], d, repl) == if c == d then repl else [c]
  {
    assert [c][1..] == [];
  }

  /**
   * Replacing `&` first and then `<`, `>`, `"` and `'` escapes each
   * character exactly as `html.escape` does: no replacement touches what an
   * earlier one produced.
   */
  lemma {:induction false} ChainIsHtmlEscape(s: string)
    ensures EscapeChain(s) == AppSecurity.EscapeHtml(s)
  {
    if s != [] {
      var h, t := s[0], s[1..];
      ChainIsHtmlEscape(t);
      assert s == [h] + t;
      ChainConcat([h], t);
      ChainOfChar(h);
      assert AppSecurity.EscapeHtml(s) == AppSecurity.EscapeChar(h) + AppSecurity.EscapeHtml(t);
    }
  }

  /**
   * `sanitize_text`: empty stays empty; otherwise the tags are stripped and
   * the five characters escaped, so no markup character or quote is left.
   */
  function SanitizeText(text: string): (r: string)
    ensures text == [] ==> r == []
    ensures text != [] ==> r == AppSecurity.EscapeHtml(StripTags(text))
    ensures forall c | c in r :: c !in "<>\"'"
  {
    if text == [] then []
    else
      ChainIsHtmlEscape(StripTags(text));
      AppSecurity.EscapedIsInert(StripTags(text));
      EscapeChain(StripTags(text))
  }

  /** Text with nothing to strip or escape comes back unchanged. */
  lemma SanitizeOfPlain(text: string)
    requires forall c | c in text :: c !in "&<>\"'"
    ensures SanitizeText(text) == text
  {
    if text != [] {
      StripTagsOfPlain(text);
      AppSecurity.EscapeOfSafe(text);
    }
  }

  /**
   * The tags of a script element are removed before escaping, so only its
   * escaped body is left: the markup is not shown escaped.
   */
  lemma SanitizeStripsScript(body: string)
    requires '<' !in body
    ensures SanitizeText("<script>" + body + "</script>") == AppSecurity.EscapeHtml(body)
    ensures SanitizeText("<script>" + body + "</script>") != AppSecurity.EscapeHtml("<script>" + body + "</script>")
  {
    ScriptTagsStripped(body);
    EscapeGrows("<script>", body, "</script>");
  }

  /** Escaping text with a non-empty prefix gives more than escaping its middle alone. */
  lemma EscapeGrows(a: string, b: string, c: string)
    requires a != []
    ensures |AppSecurity.EscapeHtml(a + b + c)| > |AppSecurity.EscapeHtml(b)|
  {
    assert a + b + c == a + (b + c);
    EscapeConcat(a, b + c);
    EscapeConcat(b, c);
  }

  lemma ScriptTagsStripped(body: string)
    requires '<' !in body
    ensures StripTags("<script>" + body + "</script>") == body
  {
    var rest := body + "</script>";
    assert "<script>" + body + "</script>" == "<" + "script" + ">" + rest;
    LeadingTag("script", rest);
    PlainPrefixKept(body, "</script>");
    ClosingTagStripped();
  }

  lemma ClosingTagStripped()
    ensures StripTags("</script>") == []
  {
    assert "</script>" == "<" + "/script" + ">" + [];
    LeadingTag("/script", []);
  }

  lemma {:induction false} EscapeConcat(a: string, b: string)
    ensures AppSecurity.EscapeHtml(a + b) == AppSecurity.EscapeHtml(a) + AppSecurity.EscapeHtml(b)
  {
    if a != [] {
      assert (a + b)[1..] == a[1..] + b;
      EscapeConcat(a[1..], b);
    } else {
      assert a + b == b;
    }
  }

  // ---------------------------------------------------------------------
  // validate_date_format
  // ---------------------------------------------------------------------

  /**
   * `re.match(r'^\d{2}\.\d{2}\.\d{4}$', s)`: two digits, a dot, two digits,
   * a dot, four digits; `$` also matches before one final newline.
   */
  predicate DateShape(s: string)
  {
    (|s| == 10 || (|s| == 11 && s[10] == '\n')) &&
    IsAllDigits(s[0..2]) && s[2] == '.' && IsAllDigits(s[3..5]) && s[5] == '.' && IsAllDigits(s[6..10])
  }

  /**
   * `validate_date_format`: the shape, then year 1900 to 2100, month 1 to
   * 12 and day 1 to 31 (the trailing newline `int` ignores). The day is not
   * checked against the month's length.
   */
  function ValidateDateFormat(s: string): (ok: bool)
    ensures ok ==> |s| == 10 || |s| == 11
  {
    DateShape(s) &&
    1900 <= DigitsToNat(s[6..10]) <= 2100 && 1 <= DigitsToNat(s[3..5]) <= 12 && 1 <= DigitsToNat(s[0..2]) <= 31
  }

  /** A `DD.MM.YYYY` text is accepted exactly when its numbers are in range. */
  lemma DateAccepts(d: string, m: string, y: string)
    requires |d| == 2 && |m| == 2 && |y| == 4 && IsAllDigits(d) && IsAllDigits(m) && IsAllDigits(y)
    ensures ValidateDateFormat(d + "." + m + "." + y) <==>
            1 <= DigitsToNat(d) <= 31 && 1 <= DigitsToNat(m) <= 12 && 1900 <= DigitsToNat(y) <= 2100
  {
    DottedFields(d, m, y);
  }

  lemma DottedFields(d: string, m: string, y: string)
    requires |d| == 2 && |m| == 2 && |y| == 4
    ensures var s := d + "." + m + "." + y;
            |s| == 10 && s[0..2] == d && s[2] == '.' && s[3..5] == m && s[5] == '.' && s[6..10] == y
  {
    var s := d + "." + m + "." + y;
    assert s[0..2] == d && s[3..5] == m && s[6..10] == y;
  }

  /** One trailing newline does not change the verdict. */
  lemma TrailingNewlineIgnored(s: string)
    requires |s| == 10
    ensures ValidateDateFormat(s + "\n") == ValidateDateFormat(s)
  {
    var t := s + "\n";
    assert t[0..2] == s[0..2] && t[3..5] == s[3..5] && t[6..10] == s[6..10];
  }

  /** On `DD.MM.YYYY` texts this check and the application's split-based one agree. */
  lemma DateChecksAgree(d: string, m: string, y: string)
    requires |d| == 2 && |m| == 2 && |y| == 4 && IsAllDigits(d) && IsAllDigits(m) && IsAllDigits(y)
    ensures ValidateDateFormat(d + "." + m + "." + y) == AppSecurity.ValidateDateFormat(d + "." + m + "." + y)
  {
    DateAccepts(d, m, y);
    AppSecurity.DateFormatAccepts(d, m, y);
  }

  // ---------------------------------------------------------------------
  // rate_limit_check
  // ---------------------------------------------------------------------

  /** The key `f"{action}_{window}"` under the user's `rate_limits`. */
  function RateKey(action: string, window: int): string
  {
    action + "_" + IntToString(window)
  }

  lemma IntToStringInjective(i: int, j: int)
    requires IntToString(i) == IntToString(j)
    ensures i == j
  {
    var s := IntToString(i);
    if i < 0 && j < 0 {
      assert DigitsToNat(s[1..]) == -i == -j;
    }
  }

  lemma NoUnderscoreInNumber(w: int)
    ensures '_' !in IntToString(w)
  {
    var s := IntToString(w);
    forall q | 0 <= q < |s| ensures s[q] != '_' {
      if w < 0 && q > 0 {
        assert s[q] == s[1..][q - 1];
        assert IsDigit(s[1..][q - 1]);
      } else if w >= 0 {
        assert IsDigit(s[q]);
      }
    }
  }

  /** The text after the last '_', or all of it when there is none. */
  function AfterLastUnderscore(s: string): (r: string)
    ensures '_' !in r && |r| <= |s| && r == s[|s| - |r|..]
  {
    if s == [] || s[|s| - 1] == '_' then []
    else AfterLastUnderscore(s[..|s| - 1]) + [s[|s| - 1]]
  }

  lemma {:induction false} AfterLastOfKey(a: string, t: string)
    requires '_' !in t
    ensures AfterLastUnderscore(a + "_" + t) == t
  {
    if t != [] {
      var init := t[..|t| - 1];
      assert '_' !in init by {
        assert forall c | c in init :: c in t;
      }
      AfterLastOfKey(a, init);
      assert (a + "_" + t)[..|a + "_" + t| - 1] == a + "_" + init;
      assert t == init + [t[|t| - 1]];
    }
  }

  /** Distinct actions or windows never share a key, so their request times are kept apart. */
  lemma RateKeyInjective(a1: string, w1: int, a2: string, w2: int)
    requires RateKey(a1, w1) == RateKey(a2, w2)
    ensures a1 == a2 && w1 == w2
  {
    NoUnderscoreInNumber(w1);
    NoUnderscoreInNumber(w2);
    KeyParts(a1, IntToString(w1), a2, IntToString(w2));
    IntToStringInjective(w1, w2);
  }

  /** Two texts joined by '_' to a suffix without '_' are told apart by that last '_'. */
  lemma KeyParts(a1: string, t1: string, a2: string, t2: string)
    requires '_' !in t1 && '_' !in t2 && a1 + "_" + t1 == a2 + "_" + t2
    ensures a1 == a2 && t1 == t2
  {
    var key := a1 + "_" + t1;
    AfterLastOfKey(a1, t1);
    AfterLastOfKey(a2, t2);
    assert |a1| == |a2|;
    assert a1 == key[..|a1|];
    assert a2 == (a2 + "_" + t2)[..|a2|];
  }

  /** The stored times under `key`, or none. */
  function Times(u: RootStorage.User, key: string): seq<int>
  {
    if key in u.rateLimits then u.rateLimits[key] else []
  }

  /**
   * `rate_limit_check(user_id, action, limit, window)` at time `now`
   * (seconds): the user is fetched, the times under the action's key that
   * are not older than the window are kept, and the call is allowed iff
   * fewer than `limit` remain, recording `now`. Only that key of that user
   * changes.
   */
  method RateLimitCheck(storage: RootStorage.UserStorage, id: int, action: string, limit: int, window: int, now: int)
    returns (ok: bool)
    modifies storage
    ensures var u := RootStorage.Fetched(old(storage.users), id, now);
            var r := Check(Times(u, RateKey(action, window)), now, limit, window);
            ok == r.0 && storage.users == old(storage.users)[id := u.(rateLimits := u.rateLimits[RateKey(action, window) := r.1])]
  {
    var u := storage.GetUser(id, now);
    var key := RateKey(action, window);
    var stamps := Times(u, key);
    var kept := Recent(stamps, now - window);
    ok := |kept| < limit;
    var stored := if ok then kept + [now] else kept;
    var updated := u.(rateLimits := u.rateLimits[key := stored]);
    Dicts.UpdateTwice(old(storage.users), id, u, updated);
    storage.users := storage.users[id := updated];
  }
}
