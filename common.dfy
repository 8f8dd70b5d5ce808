/** Values and string operations shared by every part of the model: the
    JavaScript string built-ins the source relies on (trim, split, join,
    repeat, startsWith, endsWith), decimal rendering of numbers and the
    decimal prefix parse of parseInt. */
module Common {

  datatype Option<T> = None | Some(value: T)

  datatype Result<T, E> = Ok(value: T) | Err(error: E)

  // ---------------------------------------------------------------------
  // Whitespace and trimming (String.prototype.trim)
  // ---------------------------------------------------------------------

  /** The white-space and line-terminator characters String.prototype.trim
      removes, which are also the ones parseInt skips before the number:
      the ASCII ones, no-break space, the byte-order mark and the Unicode
      space separators (ECMAScript WhiteSpace and LineTerminator). */
  predicate IsSpace(c: char) {
    ('\t' <= c <= '\r') || c == ' ' || c == '\U{A0}' || c == '\U{1680}'
    || ('\U{2000}' <= c <= '\U{200A}')
    || c == '\U{2028}' || c == '\U{2029}' || c == '\U{202F}' || c == '\U{205F}' || c == '\U{3000}' || c == '\U{FEFF}'
  }

  predicate IsTrimmed(s: string) {
    s == [] || (!IsSpace(s[0]) && !IsSpace(s[|s| - 1]))
  }

  function TrimStart(s: string): (r: string)
    ensures |r| <= |s| && r == s[|s| - |r|..]
    ensures forall i :: 0 <= i < |s| - |r| ==> IsSpace(s[i])
    ensures r == [] || !IsSpace(r[0])
  {
    if s != [] && IsSpace(s[0]) then TrimStart(s[1..]) else s
  }

  function TrimEnd(s: string): (r: string)
    ensures |r| <= |s| && r == s[..|r|]
    ensures forall i :: |r| <= i < |s| ==> IsSpace(s[i])
    ensures r == [] || !IsSpace(r[|r| - 1])
  {
    if s != [] && IsSpace(s[|s| - 1]) then TrimEnd(s[..|s| - 1]) else s
  }

  /** r stands in s at offset i with nothing but white space before and
      after it. */
  predicate Surrounded(s: string, i: int, r: string) {
    0 <= i && i + |r| <= |s| && s[i..i + |r|] == r
    && (forall k :: 0 <= k < i ==> IsSpace(s[k]))
    && (forall k :: i + |r| <= k < |s| ==> IsSpace(s[k]))
  }

  /** trim(): s with exactly its leading and trailing white space removed,
      that is the one trimmed infix of s surrounded only by white space
      (see TrimUnique), or "" when s is all white space. */
  function Trim(s: string): (r: string)
    ensures IsTrimmed(r)
    ensures exists i :: Surrounded(s, i, r)
    ensures IsTrimmed(s) ==> r == s
  {
    TrimParts(s);
    TrimEnd(TrimStart(s))
  }

  /** What trimming both ends gives, stated for Trim's contract. */
  lemma TrimParts(s: string)
    ensures IsTrimmed(TrimEnd(TrimStart(s)))
    ensures Surrounded(s, |s| - |TrimStart(s)|, TrimEnd(TrimStart(s)))
    ensures IsTrimmed(s) ==> TrimEnd(TrimStart(s)) == s
  {
    SurroundedOf(s, TrimStart(s), TrimEnd(TrimStart(s)));
    TrimKeepsTrimmed(s);
  }

  /** A prefix r of a suffix t of s, with only white space around each
      cut, stands in s surrounded by white space; it is trimmed when t
      opens and r closes with something else. */
  lemma SurroundedOf(s: string, t: string, r: string)
    requires |t| <= |s| && t == s[|s| - |t|..]
    requires forall i :: 0 <= i < |s| - |t| ==> IsSpace(s[i])
    requires |r| <= |t| && r == t[..|r|]
    requires forall i :: |r| <= i < |t| ==> IsSpace(t[i])
    requires (t == [] || !IsSpace(t[0])) && (r == [] || !IsSpace(r[|r| - 1]))
    ensures Surrounded(s, |s| - |t|, r)
    ensures IsTrimmed(r)
  {
    assert r != [] ==> r[0] == t[0];
    SliceOfSuffixPrefix(s, t, r);
    SpacesAfterPrefix(s, t, r);
  }

  /** A prefix r of a suffix t of s stands in s where t starts. */
  lemma SliceOfSuffixPrefix(s: string, t: string, r: string)
    requires |t| <= |s| && t == s[|s| - |t|..] && |r| <= |t| && r == t[..|r|]
    ensures s[|s| - |t|..|s| - |t| + |r|] == r
  {
    assert s[|s| - |t|..|s| - |t| + |r|] == t[..|r|];
  }

  /** White space after a prefix r of a suffix t of s is white space of s. */
  lemma SpacesAfterPrefix(s: string, t: string, r: string)
    requires |t| <= |s| && t == s[|s| - |t|..] && |r| <= |t|
    requires forall j :: |r| <= j < |t| ==> IsSpace(t[j])
    ensures forall k :: |s| - |t| + |r| <= k < |s| ==> IsSpace(s[k])
  {
    var i := |s| - |t|;
    forall k | i + |r| <= k < |s| ensures IsSpace(s[k]) {
      assert s[k] == t[k - i];
    }
  }

  lemma TrimKeepsTrimmed(s: string)
    ensures IsTrimmed(s) ==> TrimEnd(TrimStart(s)) == s
  {
  }

  /** The trimmed infix surrounded by white space is unique, so the
      contract of Trim determines its result. */
  lemma TrimUnique(s: string, i: int, r: string)
    requires IsTrimmed(r) && Surrounded(s, i, r)
    ensures r == Trim(s)
  {
    var j :| Surrounded(s, j, Trim(s));
    var u := Trim(s);
    if r != [] && u != [] {
      assert s[i] == r[0] && s[j] == u[0];
      assert s[i + |r| - 1] == r[|r| - 1] && s[j + |u| - 1] == u[|u| - 1];
      assert i == j;
      assert |r| == |u|;
    }
  }

  /** Blanks added around a trimmed string are what trim() takes away. */
  lemma TrimPadded(x: string, pre: string, post: string)
    requires IsTrimmed(x)
    requires forall k :: 0 <= k < |pre| ==> IsSpace(pre[k])
    requires forall k :: 0 <= k < |post| ==> IsSpace(post[k])
    ensures Trim(pre + x + post) == x
  {
    var s := pre + x + post;
    assert s[|pre|..|pre| + |x|] == x;
    assert forall k :: 0 <= k < |pre| ==> s[k] == pre[k];
    assert forall k :: |pre| + |x| <= k < |s| ==> s[k] == post[k - |pre| - |x|];
    TrimUnique(s, |pre|, x);
  }

  /** `value || fallback`: a missing or empty value takes the fallback. */
  function OrElse(value: Option<string>, fallback: string): (r: string)
    ensures value.Some? && value.value != "" ==> r == value.value
    ensures value.None? || value.value == "" ==> r == fallback
  {
    if value.Some? && value.value != "" then value.value else fallback
  }

  // ---------------------------------------------------------------------
  // Prefixes and suffixes (startsWith, endsWith, slice)
  // ---------------------------------------------------------------------

  predicate StartsWith(s: string, p: string) {
    |p| <= |s| && s[..|p|] == p
  }

  predicate EndsWith(s: string, p: string) {
    |p| <= |s| && s[|s| - |p|..] == p
  }

  lemma StartsWithAppend(a: string, b: string)
    ensures StartsWith(a + b, a)
  {
    assert (a + b)[..|a|] == a;
  }

  lemma EndsWithAppend(a: string, b: string)
    ensures EndsWith(a + b, b)
  {
    assert (a + b)[|a + b| - |b|..] == b;
  }

  lemma EndsWithTrans(s: string, t: string, u: string)
    requires EndsWith(s, t) && EndsWith(t, u)
    ensures EndsWith(s, u)
  {
    assert s[|s| - |u|..] == s[|s| - |t|..][|t| - |u|..];
  }

  /** A common front keeps a prefix a prefix. */
  lemma StartsWithExtend(a: string, b: string, p: string)
    requires StartsWith(b, p)
    ensures StartsWith(a + b, a + p)
  {
    assert (a + b)[..|a + p|] == a + b[..|p|];
  }

  lemma StartsWithTrans(s: string, t: string, u: string)
    requires StartsWith(s, t) && StartsWith(t, u)
    ensures StartsWith(s, u)
  {
    assert s[..|u|] == s[..|t|][..|u|];
  }

  // ---------------------------------------------------------------------
  // split and join on a one-character separator
  // ---------------------------------------------------------------------

  function IndexOf(s: string, c: char): (i: nat)
    requires c in s
    ensures i < |s| && s[i] == c && c !in s[..i]
  {
    if s[0] == c then 0 else 1 + IndexOf(s[1..], c)
  }

  /** s.split(sep): the pieces between separators, empty ones included,
      so that "" gives [""] and "a," gives ["a", ""]. */
  function Split(s: string, sep: char): (parts: seq<string>)
    ensures |parts| >= 1
    ensures forall k :: 0 <= k < |parts| ==> sep !in parts[k]
    ensures sep !in s ==> parts == [s]
    decreases |s|
  {
    if sep !in s then [s]
    else
      var i := IndexOf(s, sep);
      [s[..i]] + Split(s[i + 1..], sep)
  }

  /** The text of s before the first c, or all of s when there is none. */
  function Before(s: string, c: char): (r: string)
    ensures c !in r && |r| <= |s| && r == s[..|r|]
    ensures |r| < |s| ==> s[|r|] == c
  {
    if c in s then s[..IndexOf(s, c)] else s
  }

  /** The first piece of s.split(c) is the text before the first c; when
      there is a c, the second piece is the text after it up to the next. */
  lemma SplitHeads(s: string, c: char)
    ensures Split(s, c)[0] == Before(s, c)
    ensures c in s ==> |Split(s, c)| >= 2 && Split(s, c)[1] == Before(s[|Before(s, c)| + 1..], c)
  {
    SplitFirst(s, c);
    if c in s {
      var i := IndexOf(s, c);
      var rest := s[i + 1..];
      assert Split(s, c) == [s[..i]] + Split(rest, c);
      assert |Before(s, c)| == i;
      SplitFirst(rest, c);
    }
  }

  lemma SplitFirst(s: string, c: char)
    ensures Split(s, c)[0] == Before(s, c)
  {
    if c in s {
      assert Split(s, c) == [s[..IndexOf(s, c)]] + Split(s[IndexOf(s, c) + 1..], c);
    }
  }

  /** parts.join(sep). */
  function Join(parts: seq<string>, sep: char): string {
    if parts == [] then ""
    else if |parts| == 1 then parts[0]
    else parts[0] + [sep] + Join(parts[1..], sep)
  }

  lemma JoinCons(a: string, tail: seq<string>, sep: char)
    requires tail != []
    ensures Join([a] + tail, sep) == a + [sep] + Join(tail, sep)
  {
    assert ([a] + tail)[1..] == tail;
  }

  /** Splitting and joining again gives back the text. */
  lemma {:induction false} JoinSplit(s: string, sep: char)
    ensures Join(Split(s, sep), sep) == s
    decreases |s|
  {
    if sep in s {
      var i := IndexOf(s, sep);
      var tail := Split(s[i + 1..], sep);
      calc {
        Join(Split(s, sep), sep);
        Join([s[..i]] + tail, sep);
        { JoinCons(s[..i], tail, sep); }
        s[..i] + [sep] + Join(tail, sep);
        { JoinSplit(s[i + 1..], sep); }
        s[..i] + [sep] + s[i + 1..];
        { assert s == s[..i] + [sep] + s[i + 1..]; }
        s;
      }
    }
  }

  lemma {:induction false} IndexOfAfter(a: string, sep: char, b: string)
    requires sep !in a
    ensures sep in a + [sep] + b && IndexOf(a + [sep] + b, sep) == |a|
  {
    if a != [] {
      assert (a + [sep] + b)[1..] == a[1..] + [sep] + b;
      IndexOfAfter(a[1..], sep, b);
    }
  }

  /** Joining separator-free pieces and splitting again gives back the pieces. */
  lemma {:induction false} SplitJoin(parts: seq<string>, sep: char)
    requires |parts| >= 1
    requires forall k :: 0 <= k < |parts| ==> sep !in parts[k]
    ensures Split(Join(parts, sep), sep) == parts
  {
    if |parts| > 1 {
      var rest := Join(parts[1..], sep);
      var s := parts[0] + [sep] + rest;
      SplitJoin(parts[1..], sep);
      IndexOfAfter(parts[0], sep, rest);
      assert s[..|parts[0]|] == parts[0];
      assert s[|parts[0]| + 1..] == rest;
    }
  }

  /** The pieces of s.split(sep), each trimmed, with the empty ones
      dropped: the `split(sep).map(trim).filter(Boolean)` chain. */
  function SplitTrimNonEmpty(s: string, sep: char): (items: seq<string>)
    ensures forall k :: 0 <= k < |items| ==> items[k] != [] && IsTrimmed(items[k]) && sep !in items[k]
  {
    TrimNonEmptyAvoids(Split(s, sep), sep);
    TrimNonEmpty(Split(s, sep))
  }

  /** `(value || '').split(sep).map(s => s.trim()).filter(Boolean)`: the
      list parse shared by the comma-separated environment variables and
      the one-per-line modal inputs. */
  function ParseSeparated(value: Option<string>, sep: char): (items: seq<string>)
    ensures value.None? || value.value == "" ==> items == []
    ensures forall k :: 0 <= k < |items| ==> items[k] != "" && IsTrimmed(items[k]) && sep !in items[k]
  {
    if value.None? || value.value == "" then [] else SplitTrimNonEmpty(value.value, sep)
  }

  /** Writing a list of clean items with the separator between them reads
      back the same list in the same order. */
  lemma ParseSeparatedOfJoin(items: seq<string>, sep: char)
    requires forall k :: 0 <= k < |items| ==> items[k] != "" && IsTrimmed(items[k]) && sep !in items[k]
    ensures ParseSeparated(Some(Join(items, sep)), sep) == items
  {
    if items != [] {
      SplitTrimNonEmptyOfJoin(items, sep);
    }
  }

  /** Parsing is idempotent: a parsed list written back parses to itself. */
  lemma ParseSeparatedIdempotent(value: Option<string>, sep: char)
    ensures ParseSeparated(Some(Join(ParseSeparated(value, sep), sep)), sep) == ParseSeparated(value, sep)
  {
    ParseSeparatedOfJoin(ParseSeparated(value, sep), sep);
  }

  function TrimNonEmpty(parts: seq<string>): (items: seq<string>)
    ensures |items| <= |parts|
    ensures forall k :: 0 <= k < |items| ==> items[k] != [] && IsTrimmed(items[k])
  {
    if parts == [] then []
    else
      var t := Trim(parts[0]);
      if t == [] then TrimNonEmpty(parts[1..]) else [t] + TrimNonEmpty(parts[1..])
  }

  /** A character absent from every piece is absent from every item. */
  lemma {:induction false} TrimNonEmptyAvoids(parts: seq<string>, c: char)
    requires forall k :: 0 <= k < |parts| ==> c !in parts[k]
    ensures forall k :: 0 <= k < |TrimNonEmpty(parts)| ==> c !in TrimNonEmpty(parts)[k]
  {
    if parts != [] {
      TrimSubstring(parts[0]);
      TrimNonEmptyAvoids(parts[1..], c);
    }
  }

  /** Every character of trim(s) occurs in s. */
  lemma TrimSubstring(s: string)
    ensures forall c :: c in Trim(s) ==> c in s
  {
    var t := TrimStart(s);
    forall c | c in Trim(s) ensures c in s {
      var i :| 0 <= i < |Trim(s)| && Trim(s)[i] == c;
      assert t[i] == c;
      assert s[|s| - |t| + i] == c;
    }
  }

  /** Non-empty, trimmed, separator-free items survive a join and a
      split-trim-filter pass unchanged and in order. */
  lemma {:induction false} SplitTrimNonEmptyOfJoin(items: seq<string>, sep: char)
    requires |items| >= 1
    requires forall k :: 0 <= k < |items| ==> items[k] != [] && IsTrimmed(items[k]) && sep !in items[k]
    ensures SplitTrimNonEmpty(Join(items, sep), sep) == items
  {
    SplitJoin(items, sep);
    TrimNonEmptyKeeps(items);
  }

  lemma {:induction false} TrimNonEmptyKeeps(items: seq<string>)
    requires forall k :: 0 <= k < |items| ==> items[k] != [] && IsTrimmed(items[k])
    ensures TrimNonEmpty(items) == items
  {
    if items != [] {
      assert Trim(items[0]) == items[0];
      TrimNonEmptyKeeps(items[1..]);
    }
  }

  // ---------------------------------------------------------------------
  // repeat
  // ---------------------------------------------------------------------

  /** tok.repeat(n). */
  function Repeat(tok: string, n: nat): (r: string)
    ensures |r| == n * |tok|
  {
    if n == 0 then "" else tok + Repeat(tok, n - 1)
  }

  /** How many copies of tok stand at the head of s: the inverse of Repeat. */
  function CountLeading(s: string, tok: string): nat
    requires tok != []
    decreases |s|
  {
    if StartsWith(s, tok) then 1 + CountLeading(s[|tok|..], tok) else 0
  }

  /** Counting the copies of a token recovers the repeat count, provided
      what follows does not itself start with the token. */
  lemma {:induction false} CountLeadingRepeat(tok: string, n: nat, rest: string)
    requires tok != []
    requires !StartsWith(rest, tok)
    ensures CountLeading(Repeat(tok, n) + rest, tok) == n
  {
    if n > 0 {
      var s := Repeat(tok, n) + rest;
      assert s == tok + (Repeat(tok, n - 1) + rest);
      assert s[..|tok|] == tok;
      assert s[|tok|..] == Repeat(tok, n - 1) + rest;
      CountLeadingRepeat(tok, n - 1, rest);
    }
  }

  // ---------------------------------------------------------------------
  // Decimal numbers: template-string rendering and parseInt(s, 10)
  // ---------------------------------------------------------------------

  predicate IsDigit(c: char) {
    '0' <= c <= '9'
  }

  function DigitChar(d: nat): (c: char)
    requires d < 10
    ensures IsDigit(c)
  {
    ['0', '1', '2', '3', '4', '5', '6', '7', '8', '9'][d]
  }

  function DigitValue(c: char): (d: nat)
    requires IsDigit(c)
    ensures d < 10 && DigitChar(d) == c
  {
    (c as int - '0' as int) as nat
  }

  /** The decimal rendering of a non-negative number, as `${n}` gives it. */
  function NatToString(n: nat): (s: string)
    ensures s != [] && forall i :: 0 <= i < |s| ==> IsDigit(s[i])
  {
    if n < 10 then [DigitChar(n)] else NatToString(n / 10) + [DigitChar(n % 10)]
  }

  /** `${n}` for an integer of either sign. */
  function IntToString(n: int): (s: string)
    ensures s != []
    ensures forall i :: 0 <= i < |s| ==> IsDigit(s[i]) || s[i] == '-'
  {
    if n < 0 then "-" + NatToString(-n) else NatToString(n)
  }

  /** The value of a string of decimal digits. */
  function DigitsValue(s: string): nat
    requires forall i :: 0 <= i < |s| ==> IsDigit(s[i])
  {
    if s == [] then 0 else DigitsValue(s[..|s| - 1]) * 10 + DigitValue(s[|s| - 1])
  }

  /** A digit character reads back as its digit. */
  lemma DigitValueOfDigitChar(d: nat)
    requires d < 10
    ensures DigitValue(DigitChar(d)) == d
  {
  }

  /** Reading back a rendered number gives the number. */
  lemma {:induction false} DigitsValueOfNatToString(n: nat)
    ensures DigitsValue(NatToString(n)) == n
  {
    if n >= 10 {
      var s := NatToString(n);
      assert s[..|s| - 1] == NatToString(n / 10);
      DigitValueOfDigitChar(n % 10);
      DigitsValueOfNatToString(n / 10);
    }
  }

  /** The longest run of decimal digits at the head of s. */
  function LeadingDigits(s: string): (d: string)
    ensures |d| <= |s| && d == s[..|d|]
    ensures forall i :: 0 <= i < |d| ==> IsDigit(s[i])
    ensures |d| == |s| || !IsDigit(s[|d|])
  {
    if s != [] && IsDigit(s[0]) then [s[0]] + LeadingDigits(s[1..]) else []
  }

  /** parseInt(s, 10): leading white space, an optional sign, then the
      longest run of decimal digits; None stands for NaN (no digit). */
  function ParseInt(s: string): (r: Option<int>)
    ensures r.None? <==> LeadingDigits(UnsignedPart(TrimStart(s))) == []
  {
    var t := TrimStart(s);
    var digits := LeadingDigits(UnsignedPart(t));
    if digits == [] then None
    else if t[0] == '-' then Some(-(DigitsValue(digits) as int))
    else Some(DigitsValue(digits))
  }

  function UnsignedPart(t: string): string {
    if t != [] && (t[0] == '-' || t[0] == '+') then t[1..] else t
  }

  /** parseInt reads back every rendered non-negative number. */
  lemma ParseIntOfNatToString(n: nat)
    ensures ParseInt(NatToString(n)) == Some(n)
  {
    ParseIntPrefixNat(n, "");
    assert IntToString(n) + "" == NatToString(n);
  }

  lemma {:induction false} LeadingDigitsAll(s: string)
    requires forall i :: 0 <= i < |s| ==> IsDigit(s[i])
    ensures LeadingDigits(s) == s
  {
    if s != [] {
      LeadingDigitsAll(s[1..]);
    }
  }

  lemma {:induction false} LeadingDigitsPrefix(d: string, rest: string)
    requires forall i :: 0 <= i < |d| ==> IsDigit(d[i])
    requires rest == [] || !IsDigit(rest[0])
    ensures LeadingDigits(d + rest) == d
  {
    if d != [] {
      assert (d + rest)[1..] == d[1..] + rest;
      LeadingDigitsPrefix(d[1..], rest);
    }
  }

  /** parseInt reads a rendered number back from the head of a text, as
      long as no further digit follows it. */
  lemma ParseIntPrefix(n: int, rest: string)
    requires rest == [] || !IsDigit(rest[0])
    ensures ParseInt(IntToString(n) + rest) == Some(n)
  {
    if n < 0 {
      ParseIntPrefixNegative(-n, rest);
    } else {
      ParseIntPrefixNat(n, rest);
    }
  }

  /** The same, for a number rendered after a known lead. */
  lemma ParseIntAfter(lead: string, n: int, rest: string)
    requires rest == [] || !IsDigit(rest[0])
    ensures ParseInt((lead + (IntToString(n) + rest))[|lead|..]) == Some(n)
  {
    assert (lead + (IntToString(n) + rest))[|lead|..] == IntToString(n) + rest;
    ParseIntPrefix(n, rest);
  }

  lemma ParseIntPrefixNat(n: nat, rest: string)
    requires rest == [] || !IsDigit(rest[0])
    ensures ParseInt(IntToString(n) + rest) == Some(n as int)
  {
    var digits := NatToString(n);
    var u := digits + rest;
    LeadingDigitsPrefix(digits, rest);
    DigitsValueOfNatToString(n);
    assert u[0] == digits[0];
    assert IsDigit(u[0]);
    TrimStartKeeps(u);
    assert UnsignedPart(u) == u;
    assert LeadingDigits(UnsignedPart(TrimStart(u))) == digits;
  }

  lemma ParseIntPrefixNegative(m: nat, rest: string)
    requires m > 0
    requires rest == [] || !IsDigit(rest[0])
    ensures ParseInt(IntToString(-(m as int)) + rest) == Some(-(m as int))
  {
    var u := NatToString(m) + rest;
    var s := IntToString(-(m as int)) + rest;
    NegativeTextShape(m, rest);
    TrimStartKeeps(s);
    LeadingDigitsPrefix(NatToString(m), rest);
    ParseIntNegative(s, u);
    DigitsValueOfNatToString(m);
  }

  /** A rendered negative number is a minus sign before the digits of its magnitude. */
  lemma NegativeTextShape(m: nat, rest: string)
    requires m > 0
    ensures var s := IntToString(-(m as int)) + rest;
      s != [] && s[0] == '-' && s[1..] == NatToString(m) + rest
  {
    var u := NatToString(m) + rest;
    assert IntToString(-(m as int)) + rest == "-" + u;
    DropSign(u);
  }

  lemma DropSign(u: string)
    ensures ("-" + u)[1..] == u
  {
  }

  /** A minus sign in front of digits negates what they read. */
  lemma ParseIntNegative(s: string, u: string)
    requires s != [] && s[0] == '-' && TrimStart(s) == s && s[1..] == u && LeadingDigits(u) != []
    ensures ParseInt(s) == Some(-(DigitsValue(LeadingDigits(u)) as int))
  {
  }

  lemma TrimStartKeeps(s: string)
    requires s != [] && !IsSpace(s[0])
    ensures TrimStart(s) == s
  {
  }

  // ---------------------------------------------------------------------
  // Filtering and uniqueness
  // ---------------------------------------------------------------------

  predicate Distinct<T(==)>(s: seq<T>) {
    forall i, j :: 0 <= i < j < |s| ==> s[i] != s[j]
  }

  /** Array.prototype.map, or a SELECT of one column over rows in order. */
  function MapSeq<T, U>(s: seq<T>, f: T -> U): (r: seq<U>)
    ensures |r| == |s|
    ensures forall i :: 0 <= i < |s| ==> r[i] == f(s[i])
  {
    seq(|s|, i requires 0 <= i < |s| => f(s[i]))
  }

  /** No two elements share a key. */
  predicate DistinctBy<T, K(==)>(s: seq<T>, key: T -> K) {
    forall i, j :: 0 <= i < j < |s| ==> key(s[i]) != key(s[j])
  }

  /** Array.prototype.filter, or a WHERE clause over rows in table order. */
  function Keep<T(!new)>(s: seq<T>, keep: T -> bool): (r: seq<T>)
    ensures |r| <= |s|
    ensures forall x :: x in r <==> x in s && keep(x)
  {
    if s == [] then [] else (if keep(s[0]) then [s[0]] else []) + Keep(s[1..], keep)
  }

  /** Filtering works piece by piece: what is kept of a + b is what is
      kept of a followed by what is kept of b, so the kept elements keep
      their order and their number of occurrences. */
  lemma {:induction false} KeepAppend<T(!new)>(a: seq<T>, b: seq<T>, keep: T -> bool)
    ensures Keep(a + b, keep) == Keep(a, keep) + Keep(b, keep)
  {
    if a != [] {
      var head := if keep(a[0]) then [a[0]] else [];
      assert (a + b)[0] == a[0];
      assert (a + b)[1..] == a[1..] + b;
      KeepAppend(a[1..], b, keep);
      calc {
        Keep(a + b, keep);
        head + Keep(a[1..] + b, keep);
        head + (Keep(a[1..], keep) + Keep(b, keep));
        (head + Keep(a[1..], keep)) + Keep(b, keep);
        Keep(a, keep) + Keep(b, keep);
      }
    } else {
      assert a + b == b;
    }
  }

  /** Appending one element to the input appends it to the result exactly
      when it passes. */
  lemma KeepSnoc<T(!new)>(s: seq<T>, x: T, keep: T -> bool)
    ensures Keep(s + [x], keep) == Keep(s, keep) + (if keep(x) then [x] else [])
  {
    KeepAppend(s, [x], keep);
    assert [x][1..] == [];
  }

  /** Nothing is dropped when every element passes. */
  lemma {:induction false} KeepAll<T(!new)>(s: seq<T>, keep: T -> bool)
    requires forall x :: x in s ==> keep(x)
    ensures Keep(s, keep) == s
  {
    if s != [] {
      KeepAll(s[1..], keep);
      assert [s[0]] + s[1..] == s;
    }
  }

  /** Filtering keeps keys distinct. */
  lemma {:induction false} KeepDistinctBy<T(!new), K>(s: seq<T>, keep: T -> bool, key: T -> K)
    requires DistinctBy(s, key)
    ensures DistinctBy(Keep(s, keep), key)
  {
    if s != [] {
      var rest := Keep(s[1..], keep);
      KeepDistinctBy(s[1..], keep, key);
      if keep(s[0]) {
        var r := [s[0]] + rest;
        forall i, j | 0 <= i < j < |r| ensures key(r[i]) != key(r[j]) {
          if i == 0 {
            assert r[j] in s[1..];
            var k :| 0 <= k < |s[1..]| && s[1..][k] == r[j];
            assert s[k + 1] == r[j];
          } else {
            assert r[i] == rest[i - 1] && r[j] == rest[j - 1];
          }
        }
      }
    }
  }
}
