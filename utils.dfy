/**
 * The pure helpers of utils.py: input sanitising, recursive dictionary merge,
 * duration text, the e-mail shape check and recursive masking of secrets.
 */
module Utils {
  import opened Wrappers
  import opened Text
  import opened Values

  // ---------------------------------------------------------------------------
  // sanitize_input
  // ---------------------------------------------------------------------------

  /** Python's `s.replace(c, rep)` for a one-character pattern. */
  function ReplaceChar(s: string, c: char, rep: string): string
  {
    if s == [] then [] else (if s[0] == c then rep else [s[0]]) + ReplaceChar(s[1..], c, rep)
  }

  lemma {:induction false} ReplaceCharAppend(a: string, b: string, c: char, rep: string)
    ensures ReplaceChar(a + b, c, rep) == ReplaceChar(a, c, rep) + ReplaceChar(b, c, rep)
  {
    if a != [] {
      assert (a + b)[1..] == a[1..] + b;
      ReplaceCharAppend(a[1..], b, c, rep);
    } else {
      assert a + b == b;
    }
  }

  /** The four replacements of sanitize_input, applied in the source's order. */
  function ReplaceChain(s: string): string
  {
    ReplaceChar(ReplaceChar(ReplaceChar(ReplaceChar(s, '"', "\\\""), '\'', "\\'"), '<', "&lt;"), '>', "&gt;")
  }

  /** What each input character becomes: the independent, one-pass reading of the chain. */
  function EscapeChar(c: char): string
  {
    if c == '"' then "\\\""
    else if c == '\'' then "\\'"
    else if c == '<' then "&lt;"
    else if c == '>' then "&gt;"
    else [c]
  }

  function Escape(s: string): string
  {
    if s == [] then [] else EscapeChar(s[0]) + Escape(s[1..])
  }

  lemma ReplaceChainAppend(a: string, b: string)
    ensures ReplaceChain(a + b) == ReplaceChain(a) + ReplaceChain(b)
  {
    var r1a, r1b := ReplaceChar(a, '"', "\\\""), ReplaceChar(b, '"', "\\\"");
    ReplaceCharAppend(a, b, '"', "\\\"");
    var r2a, r2b := ReplaceChar(r1a, '\'', "\\'"), ReplaceChar(r1b, '\'', "\\'");
    ReplaceCharAppend(r1a, r1b, '\'', "\\'");
    var r3a, r3b := ReplaceChar(r2a, '<', "&lt;"), ReplaceChar(r2b, '<', "&lt;");
    ReplaceCharAppend(r2a, r2b, '<', "&lt;");
    ReplaceCharAppend(r3a, r3b, '>', "&gt;");
  }

  lemma ReplaceCharAbsent(s: string, c: char, rep: string)
    requires c !in s
    ensures ReplaceChar(s, c, rep) == s
  {
  }

  lemma ReplaceChainOfChar(c: char)
    ensures ReplaceChain([c]) == EscapeChar(c)
  {
    var e := EscapeChar(c);
    if c == '"' {
      assert ReplaceChar([c], '"', "\\\"") == e;
      ReplaceCharAbsent(e, '\'', "\\'");
      ReplaceCharAbsent(e, '<', "&lt;");
      ReplaceCharAbsent(e, '>', "&gt;");
    } else if c == '\'' {
      assert ReplaceChar([c], '"', "\\\"") == [c];
      assert ReplaceChar([c], '\'', "\\'") == e;
      ReplaceCharAbsent(e, '<', "&lt;");
      ReplaceCharAbsent(e, '>', "&gt;");
    } else if c == '<' {
      assert ReplaceChar(ReplaceChar(ReplaceChar([c], '"', "\\\""), '\'', "\\'"), '<', "&lt;") == e;
      ReplaceCharAbsent(e, '>', "&gt;");
    } else {
      assert ReplaceChar(ReplaceChar(ReplaceChar([c], '"', "\\\""), '\'', "\\'"), '<', "&lt;") == [c];
    }
  }

  /** The chained replaces escape each character on its own: no replacement feeds a later one. */
  lemma {:induction false} ReplaceChainIsEscape(s: string)
    ensures ReplaceChain(s) == Escape(s)
  {
    if s != [] {
      var c := s[0];
      assert s == [c] + s[1..];
      ReplaceChainAppend([c], s[1..]);
      ReplaceChainOfChar(c);
      ReplaceChainIsEscape(s[1..]);
    }
  }

  /** No angle bracket survives escaping. */
  lemma {:induction false} EscapeNoBrackets(s: string)
    ensures '<' !in Escape(s) && '>' !in Escape(s)
  {
    if s != [] {
      EscapeNoBrackets(s[1..]);
      assert Escape(s) == EscapeChar(s[0]) + Escape(s[1..]);
    }
  }

  /** Every quote or apostrophe in `r` comes right after a backslash. */
  predicate QuotesEscaped(r: string)
  {
    forall i :: 0 <= i < |r| && (r[i] == '"' || r[i] == '\'') ==> 0 < i && r[i - 1] == '\\'
  }

  /** Escaping leaves no unescaped quote or apostrophe. */
  lemma {:induction false} EscapeQuotesEscaped(s: string)
    ensures QuotesEscaped(Escape(s))
  {
    if s != [] {
      EscapeQuotesEscaped(s[1..]);
      var e, t := EscapeChar(s[0]), Escape(s[1..]);
      assert QuotesEscaped(t);
      assert Escape(s) == e + t;
      forall i | 0 <= i < |e + t| && ((e + t)[i] == '"' || (e + t)[i] == '\'')
        ensures 0 < i && (e + t)[i - 1] == '\\'
      {
        if i >= |e| {
          var j := i - |e|;
          assert (e + t)[i] == t[j];
          assert 0 < j && t[j - 1] == '\\';
          assert (e + t)[i - 1] == t[j - 1];
        } else {
          assert (e + t)[i] == e[i] && e == EscapeChar(s[0]);
          assert e == "\\\"" || e == "\\'";
          assert i == 1 && (e + t)[0] == e[0];
        }
      }
    }
  }

  /** Escaping adds one character per quote or apostrophe and three per angle bracket. */
  lemma {:induction false} EscapeLength(s: string)
    ensures |Escape(s)| == |s| + Count(s, '"') + Count(s, '\'') + 3 * (Count(s, '<') + Count(s, '>'))
  {
    if s != [] {
      EscapeLength(s[1..]);
    }
  }

  /**
   * sanitize_input: no angle bracket survives, every quote and apostrophe is
   * escaped by a backslash, and each special character grows the text by a
   * known amount.
   */
  function SanitizeInput(s: string): (r: string)
    ensures s == "" ==> r == ""
    ensures '<' !in r && '>' !in r
    ensures forall i :: 0 <= i < |r| && (r[i] == '"' || r[i] == '\'') ==> 0 < i && r[i - 1] == '\\'
    ensures |r| == |s| + Count(s, '"') + Count(s, '\'') + 3 * (Count(s, '<') + Count(s, '>'))
  {
    ReplaceChainIsEscape(s);
    EscapeNoBrackets(s);
    EscapeQuotesEscaped(s);
    EscapeLength(s);
    if s == "" then "" else ReplaceChain(s)
  }

  // ---------------------------------------------------------------------------
  // deep_merge
  // ---------------------------------------------------------------------------

  /**
   * deep_merge: every key of either dictionary; `d2` wins, except that two
   * dictionaries under the same key are merged recursively. The inputs are
   * values, so neither is changed.
   */
  function DeepMerge(d1: Metadata, d2: Metadata): (r: Metadata)
    decreases Dict(d2)
    ensures r.Keys == d1.Keys + d2.Keys
    ensures forall k :: k in d1 && k !in d2 ==> r[k] == d1[k]
    ensures forall k :: k in d2 && !(k in d1 && d1[k].Dict? && d2[k].Dict?) ==> r[k] == d2[k]
    ensures forall k :: k in d1 && k in d2 && d1[k].Dict? && d2[k].Dict? ==>
      r[k] == Dict(DeepMerge(d1[k].entries, d2[k].entries))
  {
    map k | k in d1.Keys + d2.Keys ::
      if k in d2 then
        if k in d1 && d1[k].Dict? && d2[k].Dict? then Dict(DeepMerge(d1[k].entries, d2[k].entries))
        else d2[k]
      else d1[k]
  }

  /** Merging a dictionary into itself changes nothing. */
  lemma {:induction false} DeepMergeSelf(d: Metadata)
    decreases Dict(d)
    ensures DeepMerge(d, d) == d
  {
    forall k | k in d && d[k].Dict?
      ensures DeepMerge(d[k].entries, d[k].entries) == d[k].entries
    {
      DeepMergeSelf(d[k].entries);
    }
  }

  /** Merging the same `d2` a second time changes nothing: `d2` is already absorbed. */
  lemma {:induction false} DeepMergeAbsorbs(d1: Metadata, d2: Metadata)
    decreases Dict(d2)
    ensures DeepMerge(DeepMerge(d1, d2), d2) == DeepMerge(d1, d2)
  {
    var r := DeepMerge(d1, d2);
    forall k | k in d2 && r[k].Dict? && d2[k].Dict?
      ensures DeepMerge(r[k].entries, d2[k].entries) == r[k].entries
    {
      if k in d1 && d1[k].Dict? {
        DeepMergeAbsorbs(d1[k].entries, d2[k].entries);
      } else {
        DeepMergeSelf(d2[k].entries);
      }
    }
  }

  /** Without nested dictionaries on both sides, deep_merge is Python's `{**d1, **d2}`. */
  lemma DeepMergeShallow(d1: Metadata, d2: Metadata)
    requires forall k :: k in d1 && k in d2 ==> !(d1[k].Dict? && d2[k].Dict?)
    ensures DeepMerge(d1, d2) == d1 + d2
  {
  }

  // ---------------------------------------------------------------------------
  // format_duration
  // ---------------------------------------------------------------------------

  function HourWord(hours: int): string
  {
    if hours > 1 then "hours" else "hour"
  }

  /** format_duration: "{m} minutes" below an hour, else hours and any remaining minutes. */
  function FormatDuration(minutes: int): string
  {
    if minutes < 60 then IntToString(minutes) + " minutes"
    else
      var hours, remaining := minutes / 60, minutes % 60;
      if remaining == 0 then IntToString(hours) + " " + HourWord(hours)
      else IntToString(hours) + " " + HourWord(hours) + " " + IntToString(remaining) + " minutes"
  }

  /** An optional minus sign and a run of digits at the head of `s`, and what follows. */
  function ReadInt(s: string): Option<(int, string)>
  {
    var negative := s != [] && s[0] == '-';
    var body := if negative then s[1..] else s;
    var k := DigitRun(body);
    if k == 0 then None
    else
      var v: int := DigitsValue(body[..k]);
      var n := if negative then -v else v;
      Some((n, body[k..]))
  }

  /** The text after the hour word when minutes follow it: " hours <rest>" or " hour <rest>". */
  function AfterHourWord(rest: string): Option<string>
  {
    if |rest| >= 7 && rest[..7] == " hours " then Some(rest[7..])
    else if |rest| >= 6 && rest[..6] == " hour " then Some(rest[6..])
    else None
  }

  /** What follows the leading number `n` of a duration text. */
  function ParseUnits(n: int, rest: string): Option<int>
  {
    if rest == " minutes" then Some(n)
    else if rest == " hour" || rest == " hours" then Some(60 * n)
    else match AfterHourWord(rest)
      case None => None
      case Some(tail) =>
        match ReadInt(tail)
        case Some((m, rest2)) => if rest2 == " minutes" then Some(60 * n + m) else None
        case None => None
  }

  /** Reads a text of the three shapes format_duration produces back into minutes. */
  function ParseDuration(s: string): Option<int>
  {
    match ReadInt(s)
    case None => None
    case Some((n, rest)) => ParseUnits(n, rest)
  }

  lemma ReadIntOf(i: int, t: string)
    requires t == [] || !IsDigit(t[0])
    ensures ReadInt(IntToString(i) + t) == Some((i, t))
  {
    var n: nat := if i < 0 then -i else i;
    var d := NatToString(n);
    ReadDigitsThen(n, t);
    if i < 0 {
      var s := IntToString(i) + t;
      assert s == "-" + (d + t);
      assert s[1..] == d + t;
    }
  }

  /** The digits of `n` followed by a non-digit: the run stops exactly after them. */
  lemma ReadDigitsThen(n: nat, t: string)
    requires t == [] || !IsDigit(t[0])
    ensures var d := NatToString(n);
      DigitRun(d + t) == |d| && (d + t)[..|d|] == d && (d + t)[|d|..] == t && DigitsValue(d) == n
  {
    var d := NatToString(n);
    NatToStringRoundTrip(n);
    DigitRunOfDigitsThen(d, t);
    assert (d + t)[..|d|] == d;
  }

  lemma AfterHourWordOf(hours: int, tail: string)
    ensures AfterHourWord(" " + HourWord(hours) + " " + tail) == Some(tail)
  {
    var rest := " " + HourWord(hours) + " " + tail;
    if hours > 1 {
      assert rest == " hours " + tail;
      assert rest[..7] == " hours " && rest[7..] == tail;
    } else {
      assert rest == " hour " + tail;
      assert rest[..6] == " hour " && rest[6..] == tail;
      assert rest[5] == ' ' && " hours "[5] == 's';
    }
  }

  lemma ParseUnitsOfTail(n: int, rest: string, tail: string, m: int)
    requires rest != " minutes" && |rest| > 7
    requires AfterHourWord(rest) == Some(tail) && ReadInt(tail) == Some((m, " minutes"))
    ensures ParseUnits(n, rest) == Some(60 * n + m)
  {
  }

  lemma ParseHoursAndTail(hours: int, tail: string, m: int)
    requires ReadInt(tail) == Some((m, " minutes"))
    ensures ParseUnits(hours, " " + HourWord(hours) + " " + tail) == Some(60 * hours + m)
  {
    var rest := " " + HourWord(hours) + " " + tail;
    AfterHourWordOf(hours, tail);
    assert rest != " minutes" by {
      assert rest[1] == 'h' && " minutes"[1] == 'm';
    }
    assert |tail| > 0;
    ParseUnitsOfTail(hours, rest, tail, m);
  }

  lemma ParseDurationOf(n: int, rest: string)
    requires rest == [] || !IsDigit(rest[0])
    ensures ParseDuration(IntToString(n) + rest) == ParseUnits(n, rest)
  {
    ReadIntOf(n, rest);
  }

  /** The hour word alone reads as whole hours. */
  lemma ParseUnitsOfHourWord(hours: int)
    ensures ParseUnits(hours, " " + HourWord(hours)) == Some(60 * hours)
  {
    if hours > 1 {
      assert " " + HourWord(hours) == " hours";
    } else {
      assert " " + HourWord(hours) == " hour";
    }
  }

  lemma WholeHoursRoundTrip(hours: int)
    ensures ParseDuration(IntToString(hours) + " " + HourWord(hours)) == Some(60 * hours)
  {
    var unit := " " + HourWord(hours);
    assert IntToString(hours) + " " + HourWord(hours) == IntToString(hours) + unit;
    assert unit[0] == ' ';
    ParseDurationOf(hours, unit);
    ParseUnitsOfHourWord(hours);
  }

  lemma HoursAndMinutesRoundTrip(hours: int, remaining: int)
    requires 0 <= remaining
    ensures ParseDuration(IntToString(hours) + " " + HourWord(hours) + " " + IntToString(remaining) + " minutes")
      == Some(60 * hours + remaining)
  {
    var tail := IntToString(remaining) + " minutes";
    var rest := " " + HourWord(hours) + " " + tail;
    assert IntToString(hours) + " " + HourWord(hours) + " " + IntToString(remaining) + " minutes"
      == IntToString(hours) + rest;
    ParseDurationOf(hours, rest);
    ReadIntOf(remaining, " minutes");
    ParseHoursAndTail(hours, tail, remaining);
  }

  /** format_duration loses nothing: its text can be read back to the same number of minutes. */
  lemma FormatDurationRoundTrip(minutes: int)
    ensures ParseDuration(FormatDuration(minutes)) == Some(minutes)
  {
    if minutes < 60 {
      ParseDurationOf(minutes, " minutes");
    } else if minutes % 60 == 0 {
      WholeHoursRoundTrip(minutes / 60);
    } else {
      HoursAndMinutesRoundTrip(minutes / 60, minutes % 60);
    }
  }

  /** Two different durations never read the same. */
  lemma FormatDurationInjective(a: int, b: int)
    requires FormatDuration(a) == FormatDuration(b)
    ensures a == b
  {
    FormatDurationRoundTrip(a);
    FormatDurationRoundTrip(b);
  }

  // ---------------------------------------------------------------------------
  // validate_email
  // ---------------------------------------------------------------------------

  predicate IsLetter(c: char) { IsUpper(c) || IsLower(c) }

  /** `[a-zA-Z0-9._%+-]` */
  predicate IsLocalChar(c: char)
  {
    IsLetter(c) || IsDigit(c) || c == '.' || c == '_' || c == '%' || c == '+' || c == '-'
  }

  /** `[a-zA-Z0-9.-]` */
  predicate IsDomainChar(c: char)
  {
    IsLetter(c) || IsDigit(c) || c == '.' || c == '-'
  }

  /**
   * The regular expression `[a-zA-Z0-9._%+-]+@[a-zA-Z0-9.-]+\.[a-zA-Z]{2,}`
   * matches all of `s`, with the `@` at index `at` and the final `.` at `dot`.
   */
  ghost predicate MatchesAt(s: string, at: int, dot: int)
  {
    && 0 < at && at + 1 < dot && dot + 2 < |s|
    && s[at] == '@' && s[dot] == '.'
    && (forall i :: 0 <= i < at ==> IsLocalChar(s[i]))
    && (forall i :: at < i < dot ==> IsDomainChar(s[i]))
    && (forall i :: dot < i < |s| ==> IsLetter(s[i]))
  }

  ghost predicate MatchesWhole(s: string)
  {
    exists at, dot :: MatchesAt(s, at, dot)
  }

  /** `re.match` with `^...$`: `$` also matches before one final newline. */
  ghost predicate MatchesEmailPattern(s: string)
  {
    MatchesWhole(s) || (|s| > 0 && s[|s| - 1] == '\n' && MatchesWhole(s[..|s| - 1]))
  }

  function IndexOf(s: string, c: char): (r: Option<nat>)
    ensures r.Some? ==> r.value < |s| && s[r.value] == c && forall i :: 0 <= i < r.value ==> s[i] != c
    ensures r.None? ==> forall i :: 0 <= i < |s| ==> s[i] != c
  {
    if s == [] then None
    else if s[0] == c then Some(0)
    else match IndexOf(s[1..], c)
      case Some(i) => Some(i + 1)
      case None => None
  }

  function LastIndexOf(s: string, c: char): (r: Option<nat>)
    ensures r.Some? ==> r.value < |s| && s[r.value] == c && forall i :: r.value < i < |s| ==> s[i] != c
    ensures r.None? ==> forall i :: 0 <= i < |s| ==> s[i] != c
  {
    if s == [] then None
    else if s[|s| - 1] == c then Some(|s| - 1)
    else LastIndexOf(s[..|s| - 1], c)
  }

  /** The shape check without the optional final newline: first `@`, last `.`, and the classes between. */
  predicate EmailBodyOk(s: string)
  {
    var at, dot := IndexOf(s, '@'), LastIndexOf(s, '.');
    && at.Some? && dot.Some?
    && 0 < at.value && at.value + 1 < dot.value && dot.value + 2 < |s|
    && (forall i :: 0 <= i < at.value ==> IsLocalChar(s[i]))
    && (forall i :: at.value < i < dot.value ==> IsDomainChar(s[i]))
    && (forall i :: dot.value < i < |s| ==> IsLetter(s[i]))
  }

  /** validate_email */
  function ValidateEmail(email: string): bool
  {
    if email == "" then false
    else EmailBodyOk(email) || (email[|email| - 1] == '\n' && EmailBodyOk(email[..|email| - 1]))
  }

  lemma EmailBodyOkIsMatch(s: string)
    ensures EmailBodyOk(s) <==> MatchesWhole(s)
  {
    if EmailBodyOk(s) {
      assert MatchesAt(s, IndexOf(s, '@').value, LastIndexOf(s, '.').value);
    }
    if MatchesWhole(s) {
      var at, dot :| MatchesAt(s, at, dot);
      var a, d := IndexOf(s, '@'), LastIndexOf(s, '.');
      assert a == Some(at) by {
        assert IsLocalChar(s[at - 1]) ==> s[at - 1] != '@';
      }
      assert d == Some(dot) by {
        assert forall i :: dot < i < |s| ==> s[i] != '.';
      }
    }
  }

  /** validate_email accepts exactly the strings the source's regular expression matches. */
  lemma ValidateEmailIsPattern(email: string)
    ensures ValidateEmail(email) <==> MatchesEmailPattern(email)
  {
    EmailBodyOkIsMatch(email);
    if email != "" && email[|email| - 1] == '\n' {
      EmailBodyOkIsMatch(email[..|email| - 1]);
    }
  }

  /** An accepted address has exactly one `@`, with a non-empty local part before it. */
  lemma ValidEmailHasOneAt(email: string) returns (at: nat)
    requires ValidateEmail(email)
    ensures 0 < at < |email| && email[at] == '@'
    ensures forall i :: 0 <= i < |email| && email[i] == '@' ==> i == at
  {
    var s := if EmailBodyOk(email) then email else email[..|email| - 1];
    assert EmailBodyOk(s);
    at := IndexOf(s, '@').value;
    var dot := LastIndexOf(s, '.').value;
    forall i | 0 <= i < |email| && email[i] == '@' ensures i == at {
      assert !IsLocalChar('@') && !IsDomainChar('@') && !IsLetter('@');
      if i < |s| {
        assert s[i] == email[i];
      }
    }
  }

  // ---------------------------------------------------------------------------
  // mask_sensitive_data
  // ---------------------------------------------------------------------------

  /** The source's default `fields_to_mask`. */
  const DefaultSensitiveFields: seq<string> := ["password", "token", "api_key", "secret", "auth"]

  const Redacted: string := "[REDACTED]"

  const MaskedValue: string := "***MASKED***"

  /** A string is redacted when it contains some field, both compared in lower case. */
  predicate TextIsSensitive(text: string, fields: seq<string>)
  {
    exists i :: 0 <= i < |fields| && Contains(Lower(text), Lower(fields[i]))
  }

  /** A key is masked when its lower-cased form contains some field as given (the field is not lower-cased). */
  predicate KeyIsSensitive(key: string, fields: seq<string>)
  {
    exists i :: 0 <= i < |fields| && Contains(Lower(key), fields[i])
  }

  /** mask_sensitive_data: dictionaries keep their keys, lists their length, other values are unchanged. */
  function MaskSensitiveData(data: Value, fields: seq<string>): (r: Value)
    ensures data.Str? ==> r == (if TextIsSensitive(data.s, fields) then Str(Redacted) else data)
    ensures data.Dict? ==> r.Dict? && r.entries.Keys == data.entries.Keys
    ensures data.Dict? ==> forall k :: k in data.entries && KeyIsSensitive(k, fields) ==> r.entries[k] == Str(MaskedValue)
    ensures data.Dict? ==> forall k :: k in data.entries && !KeyIsSensitive(k, fields) ==>
      r.entries[k] == MaskSensitiveData(data.entries[k], fields)
    ensures data.List? ==> r.List? && |r.items| == |data.items|
    ensures data.List? ==> forall i :: 0 <= i < |data.items| ==> r.items[i] == MaskSensitiveData(data.items[i], fields)
    ensures !data.Str? && !data.Dict? && !data.List? ==> r == data
  {
    match data
    case Str(s) => if TextIsSensitive(s, fields) then Str(Redacted) else data
    case Dict(m) =>
      Dict(map k | k in m :: if KeyIsSensitive(k, fields) then Str(MaskedValue) else MaskSensitiveData(m[k], fields))
    case List(items) =>
      List(seq(|items|, i requires 0 <= i < |items| => MaskSensitiveData(items[i], fields)))
    case _ => data
  }

  /** Masking an already masked value changes nothing, whatever the fields. */
  lemma {:induction false} MaskIdempotent(data: Value, fields: seq<string>)
    ensures MaskSensitiveData(MaskSensitiveData(data, fields), fields) == MaskSensitiveData(data, fields)
  {
    match data
    case Dict(m) =>
      forall k | k in m && !KeyIsSensitive(k, fields)
        ensures MaskSensitiveData(MaskSensitiveData(m[k], fields), fields) == MaskSensitiveData(m[k], fields)
      {
        MaskIdempotent(m[k], fields);
      }
    case List(items) =>
      forall i | 0 <= i < |items|
        ensures MaskSensitiveData(MaskSensitiveData(items[i], fields), fields) == MaskSensitiveData(items[i], fields)
      {
        MaskIdempotent(items[i], fields);
      }
    case _ =>
  }

  /** Every string leaf is a mask marker or contains none of the fields. */
  ghost predicate NoSecretLeft(v: Value, fields: seq<string>)
  {
    match v
    case Str(s) => s == Redacted || s == MaskedValue || !TextIsSensitive(s, fields)
    case Dict(m) => forall k :: k in m ==> NoSecretLeft(m[k], fields)
    case List(items) => forall i :: 0 <= i < |items| ==> NoSecretLeft(items[i], fields)
    case _ => true
  }

  /** After masking, no string anywhere in the value still carries a sensitive field. */
  lemma {:induction false} MaskLeavesNoSecret(data: Value, fields: seq<string>)
    ensures NoSecretLeft(MaskSensitiveData(data, fields), fields)
  {
    match data
    case Dict(m) =>
      forall k | k in m && !KeyIsSensitive(k, fields)
        ensures NoSecretLeft(MaskSensitiveData(m[k], fields), fields)
      {
        MaskLeavesNoSecret(m[k], fields);
      }
    case List(items) =>
      forall i | 0 <= i < |items|
        ensures NoSecretLeft(MaskSensitiveData(items[i], fields), fields)
      {
        MaskLeavesNoSecret(items[i], fields);
      }
    case _ =>
  }
}
