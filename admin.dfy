/**
 * The administrator's premium command: the arguments name an action (on,
 * off, toggle or status) and a target user id in any order, and the
 * command switches the target's premium subscription only when that
 * changes it.
 */
module Admin {
  import opened Wrappers
  import opened Strings
  import SharedStorage
  import Dicts

  /** The actions the command understands. */
  const Allowed: set<string> := {"on", "off", "toggle", "status"}

  predicate IsPunct(c: char) { c == ',' || c == '.' }

  function StripPunctLeft(s: string): (r: string)
    ensures |r| <= |s|
    ensures |r| == |s| ==> r == s
    ensures |r| < |s| ==> r == s[|s| - |r|..]
    ensures r == [] || !IsPunct(r[0])
  {
    if s != [] && IsPunct(s[0]) then StripPunctLeft(s[1..]) else s
  }

  function StripPunctRight(s: string): (r: string)
    ensures |r| <= |s| && r == s[..|r|]
    ensures r == [] || !IsPunct(r[|r| - 1])
  {
    if s != [] && IsPunct(s[|s| - 1]) then StripPunctRight(s[..|s| - 1]) else s
  }

  /** `s.strip(",.")`. */
  function StripPunct(s: string): string
  {
    StripPunctRight(StripPunctLeft(s))
  }

  /** `s.lstrip("+")`. */
  function StripPlus(s: string): (r: string)
    ensures |r| <= |s|
    ensures |r| == |s| ==> r == s
    ensures |r| < |s| ==> r == s[|s| - |r|..]
    ensures r == [] || r[0] != '+'
  {
    if s != [] && s[0] == '+' then StripPlus(s[1..]) else s
  }

  /** A token the scan skips: blank, or a `@username`. */
  predicate Skipped(token: string)
  {
    var clean := Strip(token);
    clean == [] || clean[0] == '@'
  }

  /** The action a token names, if it names one: lowered, with ',' and '.' stripped. */
  function TokenAction(token: string): (r: Option<string>)
    ensures r.Some? ==> r.value in Allowed
  {
    if Skipped(token) then None
    else
      var normalized := StripPunct(Lower(Strip(token)));
      if normalized in Allowed then Some(normalized) else None
  }

  /**
   * The user id a token names, if any: with ',' and '.' stripped, digits
   * after leading '+' signs, read by `int()` (which refuses more than one
   * sign, so such a token is passed over).
   */
  function TokenTarget(token: string): Option<int>
  {
    if Skipped(token) then None
    else
      var candidate := StripPunct(Strip(token));
      var digits := StripPlus(candidate);
      if digits != [] && IsAllDigits(digits) then ParseInt(candidate) else None
  }

  /** The action and target found so far, after one more token (the loop body). */
  function Step(found: (Option<string>, Option<int>), token: string): (Option<string>, Option<int>)
  {
    if Skipped(token) then found
    else if TokenAction(token).Some? && found.0.None? then (TokenAction(token), found.1)
    else if TokenTarget(token).Some? && found.1.None? then (found.0, TokenTarget(token))
    else found
  }

  /** The scan of `args`, token by token. */
  function Scan(args: seq<string>): (Option<string>, Option<int>)
  {
    if args == [] then (None, None) else Step(Scan(args[..|args| - 1]), args[|args| - 1])
  }

  /** The action and the target with their defaults: "toggle" and the caller. */
  function Extracted(args: seq<string>, defaultId: int): (string, int)
  {
    var found := Scan(args);
    (if found.0.Some? then found.0.value else "toggle",
     if found.1.Some? then found.1.value else defaultId)
  }

  /** `_extract_action_and_target(args, default_user_id)`. */
  method ExtractActionAndTarget(args: seq<string>, defaultId: int) returns (action: string, target: int)
    ensures (action, target) == Extracted(args, defaultId)
    ensures action in Allowed
  {
    var act: Option<string> := None;
    var tgt: Option<int> := None;
    for i := 0 to |args|
      invariant (act, tgt) == Scan(args[..i])
      invariant act.Some? ==> act.value in Allowed
    {
      assert args[..i + 1][..i] == args[..i];
      var token := args[i];
      if Skipped(token) {
        continue;
      }
      var named := TokenAction(token);
      if named.Some? && act.None? {
        act := named;
        continue;
      }
      var id := TokenTarget(token);
      if id.Some? && tgt.None? {
        tgt := id;
      }
    }
    assert args[..|args|] == args;
    action := if act.Some? then act.value else "toggle";
    target := if tgt.Some? then tgt.value else defaultId;
  }

  /** The first token naming an action, read from the front. */
  function FirstAction(args: seq<string>): Option<string>
  {
    if args == [] then None
    else if TokenAction(args[0]).Some? then TokenAction(args[0])
    else FirstAction(args[1..])
  }

  /** The first token naming a user id, read from the front. */
  function FirstTarget(args: seq<string>): Option<int>
  {
    if args == [] then None
    else if TokenTarget(args[0]).Some? then TokenTarget(args[0])
    else FirstTarget(args[1..])
  }

  lemma {:induction false} FirstActionSnoc(args: seq<string>, token: string)
    ensures FirstAction(args + [token]) == if FirstAction(args).Some? then FirstAction(args) else TokenAction(token)
  {
    if args != [] {
      assert (args + [token])[1..] == args[1..] + [token];
      FirstActionSnoc(args[1..], token);
    }
  }

  lemma {:induction false} FirstTargetSnoc(args: seq<string>, token: string)
    ensures FirstTarget(args + [token]) == if FirstTarget(args).Some? then FirstTarget(args) else TokenTarget(token)
  {
    if args != [] {
      assert (args + [token])[1..] == args[1..] + [token];
      FirstTargetSnoc(args[1..], token);
    }
  }

  /** No action contains a digit. */
  lemma ActionsHaveNoDigits(w: string, p: nat)
    requires p < |w| && IsDigit(w[p])
    ensures w !in Allowed
  {
  }

  lemma LowerKeepsDigit(s: string, p: nat)
    requires p < |s| && IsDigit(s[p])
    ensures IsDigit(Lower(s)[p])
  {
  }

  /** No token is read both as an action and as a user id. */
  lemma ActionOrTarget(token: string)
    ensures TokenAction(token).None? || TokenTarget(token).None?
  {
    if !Skipped(token) {
      var clean := Strip(token);
      var candidate := StripPunct(clean);
      var digits := StripPlus(candidate);
      if digits != [] && IsAllDigits(digits) {
        StripPunctLower(clean);
        var p := |candidate| - |digits|;
        assert candidate[p] == digits[0];
        LowerKeepsDigit(candidate, p);
        ActionsHaveNoDigits(StripPunct(Lower(clean)), p);
      }
    }
  }

  /** Stripping ',' and '.' commutes with lowering. */
  lemma {:induction false} StripPunctLower(s: string)
    ensures StripPunct(Lower(s)) == Lower(StripPunct(s))
  {
    StripLeftLower(s);
    StripRightLower(StripPunctLeft(s));
  }

  lemma {:induction false} StripLeftLower(s: string)
    ensures StripPunctLeft(Lower(s)) == Lower(StripPunctLeft(s))
  {
    if s != [] {
      var l := Lower(s);
      assert l == [LowerChar(s[0])] + Lower(s[1..]);
      assert l[1..] == Lower(s[1..]);
      assert IsPunct(l[0]) <==> IsPunct(s[0]);
      StripLeftLower(s[1..]);
    }
  }

  lemma {:induction false} StripRightLower(s: string)
    ensures StripPunctRight(Lower(s)) == Lower(StripPunctRight(s))
  {
    if s != [] {
      assert Lower(s)[..|s| - 1] == Lower(s[..|s| - 1]);
      StripRightLower(s[..|s| - 1]);
    }
  }

  /**
   * The scan finds the first action and the first user id in the
   * arguments: later actions and ids, blank tokens and `@usernames` are
   * ignored.
   */
  lemma {:induction false} ScanFindsFirst(args: seq<string>)
    ensures Scan(args) == (FirstAction(args), FirstTarget(args))
  {
    if args != [] {
      var init := args[..|args| - 1];
      var token := args[|args| - 1];
      assert args == init + [token];
      ScanFindsFirst(init);
      FirstActionSnoc(init, token);
      FirstTargetSnoc(init, token);
      ActionOrTarget(token);
    }
  }

  /** `_extract_action_and_target` yields the first action (else "toggle") and the first id (else the caller). */
  lemma ExtractedIsFirst(args: seq<string>, defaultId: int)
    ensures Extracted(args, defaultId) ==
            (if FirstAction(args).Some? then FirstAction(args).value else "toggle",
             if FirstTarget(args).Some? then FirstTarget(args).value else defaultId)
  {
    ScanFindsFirst(args);
  }

  lemma {:induction false} FirstSkip(a: seq<string>, token: string, b: seq<string>)
    requires Skipped(token)
    ensures FirstAction(a + [token] + b) == FirstAction(a + b)
    ensures FirstTarget(a + [token] + b) == FirstTarget(a + b)
  {
    if a == [] {
      assert a + [token] + b == [token] + b && a + b == b;
      SkippedReadsNothing(token);
      FirstActionCons(token, b);
      FirstTargetCons(token, b);
    } else {
      var h, t := a[0], a[1..];
      assert a + [token] + b == [h] + (t + [token] + b);
      assert a + b == [h] + (t + b);
      FirstSkip(t, token, b);
      FirstActionCons(h, t + [token] + b);
      FirstActionCons(h, t + b);
      FirstTargetCons(h, t + [token] + b);
      FirstTargetCons(h, t + b);
    }
  }

  /** A blank token or a `@username` is read neither as an action nor as a user id. */
  lemma SkippedReadsNothing(token: string)
    requires Skipped(token)
    ensures TokenAction(token).None? && TokenTarget(token).None?
  {
  }

  lemma FirstActionCons(t: string, rest: seq<string>)
    ensures FirstAction([t] + rest) == if TokenAction(t).Some? then TokenAction(t) else FirstAction(rest)
  {
    assert ([t] + rest)[0] == t && ([t] + rest)[1..] == rest;
  }

  lemma FirstTargetCons(t: string, rest: seq<string>)
    ensures FirstTarget([t] + rest) == if TokenTarget(t).Some? then TokenTarget(t) else FirstTarget(rest)
  {
    assert ([t] + rest)[0] == t && ([t] + rest)[1..] == rest;
  }

  /** A blank token or a `@username` anywhere among the arguments changes nothing. */
  lemma SkippedTokenIgnored(a: seq<string>, token: string, b: seq<string>, defaultId: int)
    requires Skipped(token)
    ensures Extracted(a + [token] + b, defaultId) == Extracted(a + b, defaultId)
  {
    ExtractedIsFirst(a + [token] + b, defaultId);
    ExtractedIsFirst(a + b, defaultId);
    FirstSkip(a, token, b);
  }

  /** A token of two or more '+' signs before the digits is passed over, as `int()` refuses it. */
  lemma DoubleSignIgnored(digits: string)
    requires digits != [] && IsAllDigits(digits)
    ensures TokenTarget("++" + digits).None?
  {
    var token := "++" + digits;
    assert DoubleSigned(token, digits);
    DoubleSignIgnoredAt(token, digits);
  }

  /** `token` is two plus signs followed by a non-empty run of digits. */
  ghost predicate DoubleSigned(token: string, digits: string)
  {
    |token| == |digits| + 2 && digits != [] && IsAllDigits(digits) &&
    token[0] == '+' && token[1] == '+' && token[2..] == digits
  }

  lemma DoubleSignIgnoredAt(token: string, digits: string)
    requires DoubleSigned(token, digits)
    ensures TokenTarget(token).None?
  {
    DoubleSignTrimmed(token, digits);
    DoubleSignCandidate(token, digits);
    var candidate := StripPunct(token);
    TwoSignsRefused(candidate, Strip(candidate));
    TokenTargetOf(token, candidate, digits);
  }

  /** What the reader sees of a doubly signed token once the punctuation is stripped off. */
  lemma DoubleSignCandidate(token: string, digits: string)
    requires DoubleSigned(token, digits)
    ensures StripPlus(StripPunct(token)) == digits
    ensures |Strip(StripPunct(token))| >= 2
    ensures !IsDigit(Strip(StripPunct(token))[0]) && !IsDigit(Strip(StripPunct(token))[1])
  {
    DoubleSignUnpunctuated(token, digits);
    DoubleSignUnsigned(token, digits);
    assert token[|token| - 1] == digits[|digits| - 1];
    StripKeepsFront(token);
  }

  /** The three pieces of a doubly signed token that the token reader looks at, one lemma each. */
  lemma DoubleSignTrimmed(token: string, digits: string)
    requires DoubleSigned(token, digits)
    ensures Strip(token) == token
  {
    assert token[|token| - 1] == digits[|digits| - 1];
    TrimOfDigits(token);
  }

  lemma DoubleSignUnpunctuated(token: string, digits: string)
    requires DoubleSigned(token, digits)
    ensures StripPunct(token) == token
  {
    assert token[|token| - 1] == digits[|digits| - 1];
    assert StripPunctLeft(token) == token;
    assert StripPunctRight(token) == token;
  }

  lemma DoubleSignUnsigned(token: string, digits: string)
    requires DoubleSigned(token, digits)
    ensures StripPlus(token) == digits
  {
    assert StripPlus(token) == StripPlus(token[1..]);
    assert token[1..][1..] == digits;
    assert digits[0] != '+';
  }

  /** Stripping a string that starts with a non-blank and ends with a digit keeps its first two characters. */
  lemma StripKeepsFront(s: string)
    requires |s| >= 2 && !IsSpace(s[0]) && IsDigit(s[|s| - 1])
    ensures |Strip(s)| >= 2 && Strip(s)[0] == s[0] && Strip(s)[1] == s[1]
  {
    TrimOfDigits(s);
  }

  /** `int()` refuses a string whose stripped form starts with two non-digits. */
  lemma TwoSignsRefused(s: string, t: string)
    requires Strip(s) == t && |t| >= 2 && !IsDigit(t[0]) && !IsDigit(t[1])
    ensures ParseInt(s).None?
  {
    assert !IsAllDigits(t) by { assert !IsDigit(t[0]); }
    assert !IsAllDigits(t[1..]) by { assert t[1..][0] == t[1]; }
  }

  lemma TokenTargetOf(token: string, candidate: string, digits: string)
    requires Strip(token) == token && token != [] && token[0] != '@'
    requires StripPunct(token) == candidate && StripPlus(candidate) == digits
    requires digits != [] && IsAllDigits(digits)
    ensures TokenTarget(token) == ParseInt(candidate)
  {
  }

  /** A bare run of digits names the user with that id. */
  lemma DigitsRead(digits: string)
    requires digits != [] && IsAllDigits(digits)
    ensures TokenTarget(digits) == Some(DigitsToNat(digits) as int)
  {
    assert IsDigit(digits[0]) && IsDigit(digits[|digits| - 1]);
    TrimOfDigits(digits);
    assert StripPunctLeft(digits) == digits;
    assert StripPunctRight(digits) == digits;
    assert StripPlus(digits) == digits;
    ParseDigits(digits);
    TokenTargetOf(digits, digits, digits);
  }

  // ---------------------------------------------------------------------
  // The premium command

  /** What the command answers. */
  datatype AdminReply = AccessDenied | Usage | StatusShown(user: int, active: bool) | Updated(user: int, active: bool)

  /** The state an action asks for, given the current one. */
  function Desired(action: string, current: bool): (r: bool)
    ensures action == "on" ==> r
    ensures action == "off" ==> !r
    ensures action != "on" && action != "off" ==> r == !current
  {
    if action == "on" then true else if action == "off" then false else !current
  }

  /**
   * `premium_admin_command` after the argument split. The target's state is
   * read through `get_user`, which creates a missing record and, for an
   * administrator, brings the subscription in line with the admin mode; the
   * switch is written through `set_subscription` with no expiry.
   */
  method PremiumAdminCommand(storage: SharedStorage.UserStorage, now: int, isAdmin: bool, args: seq<string>, caller: int)
    returns (reply: AdminReply)
    modifies storage
    ensures !isAdmin ==> reply == AccessDenied && storage.users == old(storage.users)
    ensures isAdmin && args != [] && Lower(args[0]) in {"help", "?"} ==>
              reply == Usage && storage.users == old(storage.users)
    ensures isAdmin && !(args != [] && Lower(args[0]) in {"help", "?"}) ==>
              var (action, target) := Extracted(args, caller);
              var admin := target in storage.admins;
              var u := SharedStorage.Fetched(old(storage.users), target, now, admin);
              var current := u.subscription.active;
              if action == "status" || Desired(action, current) == current then
                reply == StatusShown(target, current) && storage.users == old(storage.users)[target := u]
              else
                reply == Updated(target, !current) &&
                storage.users == old(storage.users)[target := SharedStorage.Subscribed(u, !current, None, admin)]
  {
    if !isAdmin {
      return AccessDenied;
    }
    if args != [] && Lower(args[0]) in {"help", "?"} {
      return Usage;
    }
    var action, target := ExtractActionAndTarget(args, caller);
    if action !in Allowed {
      return Usage;
    }
    var stored := if target in storage.users then storage.users[target] else SharedStorage.NewUser(now);
    ghost var before := storage.users;
    var user := storage.GetUser(target, now);
    var current := user.subscription.active;
    if action == "status" {
      return StatusShown(target, current);
    }
    var desired := Desired(action, current);
    if desired == current {
      return StatusShown(target, current);
    }
    SharedStorage.TouchIdempotent(stored, now, target in storage.admins);
    assert SharedStorage.Fetched(storage.users, target, now, target in storage.admins) == user;
    ghost var written := SharedStorage.Subscribed(user, desired, None, target in storage.admins);
    storage.SetSubscription(target, now, desired, None);
    Dicts.UpdateTwice(before, target, user, written);
    reply := Updated(target, desired);
  }

  /**
   * An administrator without a stored record reads as premium, because the
   * fetch creates the record and follows the default admin mode; so
   * "status" reports active and "toggle" switches premium off.
   */
  lemma UnrecordedAdminTarget(users: map<int, SharedStorage.User>, target: int, now: int)
    requires target !in users
    ensures var u := SharedStorage.Fetched(users, target, now, true);
            u.subscription.active && !Desired("toggle", u.subscription.active)
  {
    SharedStorage.AdminPremiumUnlessFree(users, target, now);
  }

  /** "on" always ends active and "off" inactive; "toggle" always writes, and flips. */
  lemma ActionsReachTheirState(action: string, current: bool)
    requires action in Allowed && action != "status"
    ensures var after := Desired(action, current);
            (action == "on" ==> after) && (action == "off" ==> !after) &&
            (action == "toggle" ==> after != current)
  {
  }
}
