/** Shared vocabulary of the model: optional values, the Python exceptions the
    modelled code lets escape, and the few `str`/`int` builtins it relies on
    (`startswith`, `replace`, `strip`, `split`, `int()`), written out for ASCII
    digits and word characters. */
module Common {

  datatype Option<+T> = None | Some(value: T)

  /** The exceptions the modelled functions can raise without catching them. */
  datatype Exc =
    | AttributeError     // `.groupdict()` on the `None` of a failed `re.search`
    | IndexError         // list index out of range
    | KeyError           // missing dictionary key
    | StopIteration      // `next()` on an exhausted iterator without a default
    | TypeError          // wrong constructor arity, subscripting `None`
    | UnboundLocalError  // reading a local that no branch assigned
    | ValueError         // `int()` of a malformed string, a rejected assignment
    | ZeroDivisionError  // `%` by zero
    | JSONDecodeError    // `response.json()` of a body that is not JSON
    | IntegrityError     // a second row with an existing primary key

  /** What a Python call does: return a value or raise. */
  datatype Outcome<+T> = Returned(value: T) | Raised(exc: Exc)

  /** Python's `x % n` for a positive `n` is the floored remainder, which is
      Dafny's Euclidean one; `n == 0` raises. */
  function PyMod(x: int, n: int): (r: Outcome<int>)
    requires n >= 0
    ensures n == 0 <==> r == Raised(ZeroDivisionError)
    ensures n > 0 ==> r.Returned? && 0 <= r.value < n && x == (x / n) * n + r.value
  {
    if n == 0 then Raised(ZeroDivisionError) else Returned(x % n)
  }

  /** Python's `s[i]`: negative indices count from the end. */
  function PyIndex<T>(s: seq<T>, i: int): (r: Outcome<T>)
    ensures r.Raised? <==> !(-|s| <= i < |s|)
    ensures r.Raised? ==> r.exc == IndexError
    ensures 0 <= i < |s| ==> r == Returned(s[i])
    ensures -|s| <= i < 0 ==> r == Returned(s[|s| + i])
  {
    if 0 <= i < |s| then Returned(s[i])
    else if -|s| <= i < 0 then Returned(s[|s| + i])
    else Raised(IndexError)
  }

  // ---------------------------------------------------------------------------
  // Character classes (ASCII only; see README)

  predicate IsDigit(c: char) { '0' <= c <= '9' }

  /** The regular-expression class `\w` restricted to ASCII. */
  predicate IsWordChar(c: char) { 'a' <= c <= 'z' || 'A' <= c <= 'Z' || IsDigit(c) || c == '_' }

  /** The characters `str.isspace()` accepts, which `str.strip()` removes. */
  const Whitespace: set<char> := {
    ' ', '\t', '\n', '\U{B}', '\U{C}', '\r', '\U{1C}', '\U{1D}', '\U{1E}', '\U{1F}', '\U{85}', '\U{A0}',
    '\U{1680}', '\U{2000}', '\U{2001}', '\U{2002}', '\U{2003}', '\U{2004}', '\U{2005}', '\U{2006}',
    '\U{2007}', '\U{2008}', '\U{2009}', '\U{200A}', '\U{2028}', '\U{2029}', '\U{202F}', '\U{205F}', '\U{3000}'}

  predicate IsSpace(c: char) { c in Whitespace }

  predicate AllDigits(s: string) { forall i :: 0 <= i < |s| ==> IsDigit(s[i]) }

  // ---------------------------------------------------------------------------
  // Prefixes and runs

  /** `s.startswith(p)` */
  predicate StartsWith(s: string, p: string) { |p| <= |s| && s[..|p|] == p }

  lemma StartsWithConcat(p: string, t: string)
    ensures StartsWith(p + t, p)
  {
    assert (p + t)[..|p|] == p;
  }

  /** A string that differs from `p` at some position before `|p|` does not start with `p`. */
  lemma NotStartsWith(s: string, p: string, k: nat)
    requires k < |p| && (k >= |s| || s[k] != p[k])
    ensures !StartsWith(s, p)
  {
    if k < |s| && |p| <= |s| {
      assert s[..|p|][k] != p[k];
    }
  }

  /** The longest prefix of `s` whose characters all satisfy `p` (a greedy run). */
  function TakeWhile(s: string, p: char -> bool): (r: string)
    ensures |r| <= |s| && r == s[..|r|]
    ensures forall i :: 0 <= i < |r| ==> p(r[i])
    ensures |r| < |s| ==> !p(s[|r|])
  {
    if s == [] || !p(s[0]) then [] else [s[0]] + TakeWhile(s[1..], p)
  }

  /** Greedy runs are determined by the characters: a run followed by a
      character outside the class is the whole of that run. */
  lemma {:induction false} TakeWhileConcat(a: string, b: string, p: char -> bool)
    requires forall i :: 0 <= i < |a| ==> p(a[i])
    requires b == [] || !p(b[0])
    ensures TakeWhile(a + b, p) == a
  {
    if a != [] {
      assert (a + b)[0] == a[0];
      assert (a + b)[1..] == a[1..] + b;
      TakeWhileConcat(a[1..], b, p);
    } else {
      assert a + b == b;
    }
  }

  // ---------------------------------------------------------------------------
  // str.replace

  /** `o` occurs in `s` at position `i`. */
  predicate OccursAt(s: string, o: string, i: int) {
    0 <= i && i + |o| <= |s| && s[i..i + |o|] == o
  }

  /** `s.replace(o, n)`: every non-overlapping occurrence of `o`, scanned from
      the left, is replaced by `n`; an empty `o` puts `n` between every two
      characters and at both ends. */
  function Replace(s: string, o: string, n: string): string {
    if o == [] then InsertEverywhere(s, n) else ReplaceNonEmpty(s, o, n)
  }

  function InsertEverywhere(s: string, n: string): (r: string)
    ensures |r| == |s| + (|s| + 1) * |n|
  {
    if s == [] then n else n + [s[0]] + InsertEverywhere(s[1..], n)
  }

  function ReplaceNonEmpty(s: string, o: string, n: string): string
    requires o != []
    decreases |s|
  {
    if |s| < |o| then s
    else if s[..|o|] == o then n + ReplaceNonEmpty(s[|o|..], o, n)
    else [s[0]] + ReplaceNonEmpty(s[1..], o, n)
  }

  /** Where `o` does not occur, replacing it changes nothing. */
  lemma {:induction false} ReplaceAbsent(s: string, o: string, n: string)
    requires o != []
    requires forall i :: !OccursAt(s, o, i)
    ensures Replace(s, o, n) == s
    decreases |s|
  {
    if |s| >= |o| {
      assert !OccursAt(s, o, 0);
      forall i ensures !OccursAt(s[1..], o, i) {
        if 0 <= i && i + |o| <= |s| - 1 {
          assert s[1..][i..i + |o|] == s[i + 1..i + 1 + |o|];
          assert !OccursAt(s, o, i + 1);
        }
      }
      ReplaceAbsent(s[1..], o, n);
    }
  }

  /** A leading occurrence is replaced, and the scan resumes after it. */
  lemma ReplaceLeading(o: string, b: string, n: string)
    requires o != []
    ensures Replace(o + b, o, n) == n + Replace(b, o, n)
  {
    assert (o + b)[..|o|] == o;
    assert (o + b)[|o|..] == b;
  }

  /** One step of the scan when no occurrence starts at the front. */
  lemma ReplaceSkip(s: string, o: string, n: string)
    requires o != [] && |s| >= |o| && s[..|o|] != o
    ensures ReplaceNonEmpty(s, o, n) == [s[0]] + ReplaceNonEmpty(s[1..], o, n)
  {
  }

  /** One step of the scan when an occurrence starts at the front. */
  lemma ReplaceHit(s: string, o: string, n: string)
    requires o != [] && |s| >= |o| && s[..|o|] == o
    ensures ReplaceNonEmpty(s, o, n) == n + ReplaceNonEmpty(s[|o|..], o, n)
  {
  }

  /** A string shorter than a non-empty `o` is left as it is. */
  lemma ShortUnchanged(s: string, o: string, n: string)
    requires o != [] && |s| < |o|
    ensures ReplaceNonEmpty(s, o, n) == s
  {
  }

  lemma {:induction false} AcrossNonEmpty(a: string, c: char, b: string, o: string, n: string)
    requires o != [] && c !in o
    ensures ReplaceNonEmpty(a + [c] + b, o, n) == ReplaceNonEmpty(a, o, n) + [c] + ReplaceNonEmpty(b, o, n)
    decreases |a|
  {
    if |a + [c] + b| < |o| {
      ShortUnchanged(a + [c] + b, o, n);
      ShortUnchanged(a, o, n);
      ShortUnchanged(b, o, n);
    } else if |a| >= |o| && a[..|o|] == o {
      AcrossNonEmpty(a[|o|..], c, b, o, n);
      AcrossHit(a, c, b, o, n);
    } else if a == [] {
      AcrossEmpty(c, b, o, n);
    } else {
      AcrossNonEmpty(a[1..], c, b, o, n);
      AcrossSkip(a, c, b, o, n);
    }
  }

  lemma AcrossHit(a: string, c: char, b: string, o: string, n: string)
    requires o != [] && |a| >= |o| && a[..|o|] == o
    requires ReplaceNonEmpty(a[|o|..] + [c] + b, o, n) == ReplaceNonEmpty(a[|o|..], o, n) + [c] + ReplaceNonEmpty(b, o, n)
    ensures ReplaceNonEmpty(a + [c] + b, o, n) == ReplaceNonEmpty(a, o, n) + [c] + ReplaceNonEmpty(b, o, n)
  {
    var s := a + [c] + b;
    var rest := a[|o|..];
    assert s[..|o|] == a[..|o|];
    assert s[|o|..] == rest + [c] + b;
    var ra, rb := ReplaceNonEmpty(rest, o, n), ReplaceNonEmpty(b, o, n);
    ReplaceHit(s, o, n);
    assert ReplaceNonEmpty(s, o, n) == n + (ra + [c] + rb);
    ReplaceHit(a, o, n);
    assert ReplaceNonEmpty(a, o, n) == n + ra;
    Regroup(n, ra, [c], rb);
  }

  lemma Regroup<T>(x: seq<T>, y: seq<T>, z: seq<T>, w: seq<T>)
    ensures x + (y + z + w) == (x + y) + z + w
  {
  }

  lemma AcrossEmpty(c: char, b: string, o: string, n: string)
    requires o != [] && c !in o && |[c] + b| >= |o|
    ensures ReplaceNonEmpty([c] + b, o, n) == [c] + ReplaceNonEmpty(b, o, n)
  {
    StraddleFails([], c, b, o);
    ReplaceSkip([c] + b, o, n);
    assert ([c] + b)[1..] == b;
  }

  lemma AcrossSkip(a: string, c: char, b: string, o: string, n: string)
    requires o != [] && c !in o && a != [] && |a + [c] + b| >= |o|
    requires |a| >= |o| ==> a[..|o|] != o
    requires ReplaceNonEmpty(a[1..] + [c] + b, o, n) == ReplaceNonEmpty(a[1..], o, n) + [c] + ReplaceNonEmpty(b, o, n)
    ensures ReplaceNonEmpty(a + [c] + b, o, n) == ReplaceNonEmpty(a, o, n) + [c] + ReplaceNonEmpty(b, o, n)
  {
    SkipWhole(a, c, b, o, n);
    SkipLeft(a, o, n);
    Regroup([a[0]], ReplaceNonEmpty(a[1..], o, n), [c], ReplaceNonEmpty(b, o, n));
  }

  lemma SkipWhole(a: string, c: char, b: string, o: string, n: string)
    requires o != [] && c !in o && a != [] && |a + [c] + b| >= |o|
    requires |a| >= |o| ==> a[..|o|] != o
    ensures ReplaceNonEmpty(a + [c] + b, o, n) == [a[0]] + ReplaceNonEmpty(a[1..] + [c] + b, o, n)
  {
    var s := a + [c] + b;
    StraddleFails(a, c, b, o);
    ReplaceSkip(s, o, n);
    assert s[1..] == a[1..] + [c] + b;
  }

  lemma SkipLeft(a: string, o: string, n: string)
    requires o != [] && a != []
    requires |a| >= |o| ==> a[..|o|] != o
    ensures ReplaceNonEmpty(a, o, n) == [a[0]] + ReplaceNonEmpty(a[1..], o, n)
  {
    if |a| >= |o| {
      ReplaceSkip(a, o, n);
    } else {
      ShortUnchanged(a, o, n);
      ShortUnchanged(a[1..], o, n);
      assert a == [a[0]] + a[1..];
    }
  }

  /** No occurrence starts at the front of `a + [c] + b` unless it lies within `a`. */
  lemma StraddleFails(a: string, c: char, b: string, o: string)
    requires o != [] && c !in o && |a + [c] + b| >= |o|
    requires |a| >= |o| ==> a[..|o|] != o
    ensures (a + [c] + b)[..|o|] != o
  {
    var s := a + [c] + b;
    if |a| >= |o| {
      assert s[..|o|] == a[..|o|];
    } else {
      assert o[|a|] in o;
      assert s[..|o|][|a|] == c;
    }
  }

  /** A character that is not part of `o` separates the replacement into two
      independent halves: no occurrence can straddle it. */
  lemma ReplaceAcross(a: string, c: char, b: string, o: string, n: string)
    requires o != [] && c !in o
    ensures Replace(a + [c] + b, o, n) == Replace(a, o, n) + [c] + Replace(b, o, n)
  {
    AcrossNonEmpty(a, c, b, o, n);
  }

  /** Replacing in a string that lacks the first character of `o` changes nothing. */
  lemma {:induction false} ReplaceWithoutFirst(s: string, o: string, n: string)
    requires o != [] && o[0] !in s
    ensures Replace(s, o, n) == s
  {
    forall i ensures !OccursAt(s, o, i) {
      if 0 <= i && i + |o| <= |s| {
        assert s[i] in s;
        assert s[i..i + |o|][0] != o[0];
      }
    }
    ReplaceAbsent(s, o, n);
  }

  // ---------------------------------------------------------------------------
  // str.strip

  /** The number of leading characters of `s` that satisfy `p`. */
  function LeadingRun(s: string, p: char -> bool): (k: nat)
    ensures k <= |s|
    ensures forall i :: 0 <= i < k ==> p(s[i])
    ensures k < |s| ==> !p(s[k])
  {
    if s != [] && p(s[0]) then 1 + LeadingRun(s[1..], p) else 0
  }

  /** The number of trailing characters of `s` that satisfy `p`. */
  function TrailingRun(s: string, p: char -> bool): (k: nat)
    ensures k <= |s|
    ensures forall i :: |s| - k <= i < |s| ==> p(s[i])
    ensures k < |s| ==> !p(s[|s| - k - 1])
  {
    if s != [] && p(s[|s| - 1]) then 1 + TrailingRun(s[..|s| - 1], p) else 0
  }

  /** `s.strip(...)` for the characters that satisfy `p`: the slice between
      the leading run and the trailing run of what is left. */
  function StripBy(s: string, p: char -> bool): string {
    var i := LeadingRun(s, p);
    s[i..|s| - TrailingRun(s[i..], p)]
  }

  /** `s.strip()` */
  function Strip(s: string): string {
    StripBy(s, IsSpace)
  }

  /** `strip()` keeps a contiguous slice of its input, everything it cuts off
      on either side satisfies `p`, and what it keeps neither starts nor ends
      with a character that satisfies `p`. */
  lemma StripBySpec(s: string, p: char -> bool)
    ensures var i := LeadingRun(s, p); var r := StripBy(s, p);
      && i + |r| <= |s| && r == s[i..i + |r|]
      && (forall k :: 0 <= k < i ==> p(s[k]))
      && (forall k :: i + |r| <= k < |s| ==> p(s[k]))
      && (r == [] || (!p(r[0]) && !p(r[|r| - 1])))
  {
    var i := LeadingRun(s, p);
    var t := s[i..];
    var k := TrailingRun(t, p);
    var r := StripBy(s, p);
    assert r == t[..|t| - k];
    assert forall j :: i + |r| <= j < |s| ==> s[j] == t[j - i];
    if r != [] {
      assert r[0] == s[i];
      assert r[|r| - 1] == t[|t| - k - 1];
    }
  }

  /** A string without surrounding whitespace is its own strip. */
  lemma StripNoSpace(s: string)
    requires s == [] || (!IsSpace(s[0]) && !IsSpace(s[|s| - 1]))
    ensures Strip(s) == s
  {
  }

  lemma DigitNotSpace(c: char)
    requires IsDigit(c)
    ensures !IsSpace(c)
  {
  }

  // ---------------------------------------------------------------------------
  // str.split with a one-character separator

  /** `s.split(c)`: the fields between the separators, at least one. */
  function Split(s: string, c: char): (r: seq<string>)
    ensures |r| >= 1
    ensures forall i :: 0 <= i < |r| ==> c !in r[i]
    decreases |s|
  {
    if s == [] then [[]]
    else
      var rest := Split(s[1..], c);
      if s[0] == c then [[]] + rest else [[s[0]] + rest[0]] + rest[1..]
  }

  /** `c.join(fields)` */
  function Join(fields: seq<string>, c: char): string
    requires |fields| >= 1
  {
    if |fields| == 1 then fields[0] else fields[0] + [c] + Join(fields[1..], c)
  }

  /** Splitting loses nothing: joining the fields with the separator gives back the string. */
  lemma {:induction false} JoinSplit(s: string, c: char)
    ensures Join(Split(s, c), c) == s
    decreases |s|
  {
    if s != [] {
      var rest := Split(s[1..], c);
      JoinSplit(s[1..], c);
      if s[0] == c {
        assert Split(s, c)[1..] == rest;
      } else {
        var r := Split(s, c);
        if |rest| == 1 {
          assert r == [[s[0]] + rest[0]];
        } else {
          assert r[1..] == rest[1..];
          assert Join(rest, c) == rest[0] + [c] + Join(rest[1..], c);
        }
      }
    }
  }

  /** A field without the separator, then the separator, starts a split. */
  lemma {:induction false} SplitCons(a: string, c: char, b: string)
    requires c !in a
    ensures Split(a + [c] + b, c) == [a] + Split(b, c)
    decreases |a|
  {
    var s := a + [c] + b;
    if a == [] {
      assert s[0] == c && s[1..] == b;
    } else {
      assert s[0] == a[0] && s[0] != c;
      assert s[1..] == a[1..] + [c] + b;
      SplitCons(a[1..], c, b);
      assert [a[0]] + a[1..] == a;
    }
  }

  /** A string without the separator is a single field. */
  lemma {:induction false} SplitSingle(a: string, c: char)
    requires c !in a
    ensures Split(a, c) == [a]
    decreases |a|
  {
    if a != [] {
      SplitSingle(a[1..], c);
      assert [a[0]] + a[1..] == a;
    }
  }

  // ---------------------------------------------------------------------------
  // Decimal numbers: str(n) and int(s)

  function DigitChar(d: nat): (c: char)
    requires d < 10
    ensures IsDigit(c) && c as int - '0' as int == d
  {
    ('0' as int + d) as char
  }

  /** `str(n)` for a non-negative integer. */
  function NatToString(n: nat): (r: string)
    ensures |r| >= 1 && AllDigits(r)
    ensures r[0] != '0' || n == 0
    decreases n
  {
    if n < 10 then [DigitChar(n)] else NatToString(n / 10) + [DigitChar(n % 10)]
  }

  /** The digit string of Python's `int()`: decimal digits, where single
      underscores may stand between two digits. */
  predicate ValidDigits(s: string) {
    |s| > 0 && IsDigit(s[0]) && DigitsTail(s[1..])
  }

  /** What may follow a digit: nothing, a digit, or an underscore and a digit. */
  predicate DigitsTail(t: string) {
    || t == []
    || (IsDigit(t[0]) && DigitsTail(t[1..]))
    || (t[0] == '_' && |t| >= 2 && IsDigit(t[1]) && DigitsTail(t[2..]))
  }

  lemma {:induction false} DigitsTailOfDigits(t: string)
    requires AllDigits(t)
    ensures DigitsTail(t)
  {
    if t != [] {
      DigitsTailOfDigits(t[1..]);
    }
  }

  /** The value of a digit string, underscores ignored. */
  function DigitsValue(s: string): nat {
    if s == [] then 0
    else if IsDigit(s[|s| - 1]) then DigitsValue(s[..|s| - 1]) * 10 + (s[|s| - 1] as int - '0' as int)
    else DigitsValue(s[..|s| - 1])
  }

  /** `int(s)` for base 10: surrounding whitespace, an optional sign, then digits. */
  function ParseInt(s: string): Option<int> {
    var t := Strip(s);
    if t == [] then None
    else if (t[0] == '-' || t[0] == '+') then
      if ValidDigits(t[1..]) then Some(if t[0] == '-' then -(DigitsValue(t[1..]) as int) else DigitsValue(t[1..])) else None
    else if ValidDigits(t) then Some(DigitsValue(t))
    else None
  }

  lemma {:induction false} DigitsValueOfNat(n: nat)
    ensures DigitsValue(NatToString(n)) == n
    decreases n
  {
    var s := NatToString(n);
    if n >= 10 {
      DigitsValueOfNat(n / 10);
      assert s[..|s| - 1] == NatToString(n / 10);
    }
  }

  /** `int(str(n)) == n` */
  lemma ParseIntOfNat(n: nat)
    ensures ParseInt(NatToString(n)) == Some(n)
  {
    var s := NatToString(n);
    StripOfDigits(s);
    DigitsTailOfDigits(s[1..]);
    ParseIntOfDigits(s);
    DigitsValueOfNat(n);
  }

  lemma ParseIntOfDigits(s: string)
    requires ValidDigits(s) && Strip(s) == s
    ensures ParseInt(s) == Some(DigitsValue(s))
  {
  }

  lemma StripOfDigits(s: string)
    requires |s| > 0 && AllDigits(s)
    ensures Strip(s) == s
  {
    DigitNotSpace(s[0]);
    DigitNotSpace(s[|s| - 1]);
    StripNoSpace(s);
  }

  // ---------------------------------------------------------------------------
  // str.format with replacement fields

  /** The position of the first `c` in `t`, if any. */
  function IndexOf(t: string, c: char): (r: Option<nat>)
    ensures r.Some? ==> r.value < |t| && t[r.value] == c && c !in t[..r.value]
    ensures r.None? ==> c !in t
  {
    if t == [] then None
    else if t[0] == c then Some(0)
    else match IndexOf(t[1..], c)
      case None => None
      case Some(k) =>
        assert t[..k + 1] == [t[0]] + t[1..][..k];
        Some(k + 1)
  }

  /** Puts `x` in front of a formatted string; an exception passes through. */
  function Prepend(x: string, o: Outcome<string>): Outcome<string> {
    if o.Raised? then o else Returned(x + o.value)
  }

  /** The exception for a field nobody supplied: numbered fields index the
      positional arguments, named fields the keyword arguments. */
  function MissingField(name: string): Exc {
    if name != [] && AllDigits(name) then IndexError else KeyError
  }

  /** `t.format(**args)` over named and numbered fields: text is copied,
      `{{` and `}}` stand for single braces, `{name}` is replaced by the
      argument called `name`. An empty field `{}` is read as the name "";
      Python's automatic numbering of `{}` is not modelled. A lone `}`
      or an unclosed `{` raises `ValueError`; the first problem from the left
      is the one raised. */
  function Format(t: string, args: map<string, string>): Outcome<string>
    decreases |t|
  {
    if t == [] then Returned([])
    else if t[0] == '{' then
      if |t| >= 2 && t[1] == '{' then Prepend("{", Format(t[2..], args))
      else match IndexOf(t[1..], '}')
        case None => Raised(ValueError)
        case Some(k) =>
          var name := t[1..k + 1];
          if name in args then Prepend(args[name], Format(t[k + 2..], args))
          else Raised(MissingField(name))
    else if t[0] == '}' then
      if |t| >= 2 && t[1] == '}' then Prepend("}", Format(t[2..], args))
      else Raised(ValueError)
    else Prepend([t[0]], Format(t[1..], args))
  }

  /** Text without braces is copied unchanged. */
  lemma {:induction false} FormatLiteral(lit: string, rest: string, args: map<string, string>)
    requires '{' !in lit && '}' !in lit
    ensures Format(lit + rest, args) == Prepend(lit, Format(rest, args))
  {
    if lit == [] {
      assert lit + rest == rest;
      var o := Format(rest, args);
      if o.Returned? {
        assert lit + o.value == o.value;
        assert Prepend(lit, o) == Returned(o.value);
      }
      assert Format(lit + rest, args) == o;
    } else {
      var t := lit + rest;
      assert t[0] == lit[0];
      assert t[1..] == lit[1..] + rest;
      assert '{' !in lit[1..] && '}' !in lit[1..] by {
        assert forall c :: c in lit[1..] ==> c in lit;
      }
      FormatLiteral(lit[1..], rest, args);
      assert lit[0] != '{' && lit[0] != '}' by { assert lit[0] in lit; }
      assert Format(t, args) == Prepend([lit[0]], Format(t[1..], args));
      var o := Format(rest, args);
      if o.Returned? {
        assert [lit[0]] + (lit[1..] + o.value) == lit + o.value by {
          assert [lit[0]] + lit[1..] == lit;
        }
      }
    }
  }

  /** A replacement field is replaced by its argument, or raises when the
      argument is missing. */
  lemma FormatField(name: string, rest: string, args: map<string, string>)
    requires name != [] && '{' !in name && '}' !in name
    ensures Format("{" + name + "}" + rest, args)
      == if name in args then Prepend(args[name], Format(rest, args)) else Raised(MissingField(name))
  {
    var t := "{" + name + "}" + rest;
    assert t[1..] == name + "}" + rest;
    assert name[0] in name;
    IndexOfAfter(name, '}', rest);
    assert t[1..|name| + 1] == name;
    assert t[|name| + 2..] == rest;
  }

  lemma {:induction false} IndexOfAfter(a: string, c: char, b: string)
    requires c !in a
    ensures IndexOf(a + [c] + b, c) == Some(|a|)
  {
    if a == [] {
      assert (a + [c] + b)[0] == c;
    } else {
      var t := a + [c] + b;
      assert t[0] == a[0] && a[0] in a;
      assert t[1..] == a[1..] + [c] + b;
      assert c !in a[1..] by {
        assert forall x :: x in a[1..] ==> x in a;
      }
      IndexOfAfter(a[1..], c, b);
    }
  }

  /** A format string as `str.format` reads it: literal text and
      replacement fields, in order. */
  datatype Piece = Text(text: string) | Field(name: string)

  type Template = seq<Piece>

  /** The format string a template is read from. */
  function Source(t: Template): string {
    if t == [] then [] else
    (match t[0] case Text(x) => x case Field(n) => "{" + n + "}") + Source(t[1..])
  }

  /** `format(**args)` on a template kept in its parsed form. */
  function Expand(t: Template, args: map<string, string>): Outcome<string> {
    if t == [] then Returned([])
    else match t[0]
      case Text(x) => Prepend(x, Expand(t[1..], args))
      case Field(n) => if n in args then Prepend(args[n], Expand(t[1..], args)) else Raised(MissingField(n))
  }

  /** Literal text without braces; a field with a plain, non-empty name. */
  predicate PlainPiece(p: Piece) {
    match p
      case Text(x) => '{' !in x && '}' !in x
      case Field(n) => n != [] && '{' !in n && '}' !in n
  }

  /** Expanding a parsed template is exactly what `str.format` does with the
      format string it was read from. */
  lemma {:induction false} ExpandIsFormat(t: Template, args: map<string, string>)
    requires forall i :: 0 <= i < |t| ==> PlainPiece(t[i])
    ensures Format(Source(t), args) == Expand(t, args)
  {
    if t != [] {
      ExpandIsFormat(t[1..], args);
      var rest := Source(t[1..]);
      match t[0]
      case Text(x) =>
        FormatLiteral(x, rest, args);
      case Field(n) =>
        FormatField(n, rest, args);
    }
  }

  // ---------------------------------------------------------------------------
  // Shared by the providers

  /** An HTTP reply whose body has been decoded: `json` is `None` when the
      body is not JSON, so `response.json()` raises `JSONDecodeError`. */
  datatype Response<+B> = Response(statusCode: int, json: Option<B>)

  /** `bool(response)`, which is `response.ok`: no 4xx or 5xx status. */
  predicate Ok<B>(r: Response<B>) {
    !(400 <= r.statusCode < 600)
  }

  /** `next(filter(p, s), default)`: the first element that satisfies `p`. */
  function FirstWhere<T>(s: seq<T>, p: T -> bool): (r: Option<T>)
    ensures r.None? <==> forall i :: 0 <= i < |s| ==> !p(s[i])
    ensures r.Some? ==> exists i :: 0 <= i < |s| && s[i] == r.value && p(s[i]) && forall j :: 0 <= j < i ==> !p(s[j])
  {
    if s == [] then None
    else if p(s[0]) then (assert s[0] == s[0]; Some(s[0]))
    else
      var r := FirstWhere(s[1..], p);
      FirstWhereShift(s, p, r);
      r
  }

  lemma FirstWhereShift<T>(s: seq<T>, p: T -> bool, r: Option<T>)
    requires s != [] && !p(s[0])
    requires r.Some? ==> exists i :: 0 <= i < |s[1..]| && s[1..][i] == r.value && p(s[1..][i]) && forall j :: 0 <= j < i ==> !p(s[1..][j])
    ensures r.Some? ==> exists i :: 0 <= i < |s| && s[i] == r.value && p(s[i]) && forall j :: 0 <= j < i ==> !p(s[j])
  {
    if r.Some? {
      var i :| 0 <= i < |s[1..]| && s[1..][i] == r.value && p(s[1..][i]) && forall j :: 0 <= j < i ==> !p(s[1..][j]);
      assert s[i + 1] == r.value && forall j :: 0 <= j < i + 1 ==> !p(s[j]);
    }
  }

  /** The elements of `s` that satisfy `p`, in their order. */
  function Filter<T(!new)>(s: seq<T>, p: T -> bool): (r: seq<T>)
    ensures |r| <= |s|
    ensures forall x :: x in r <==> x in s && p(x)
  {
    if s == [] then [] else (if p(s[0]) then [s[0]] else []) + Filter(s[1..], p)
  }

  /** Filtering a concatenation filters each part, keeping the order. */
  lemma {:induction false} FilterAppend<T(!new)>(a: seq<T>, b: seq<T>, p: T -> bool)
    ensures Filter(a + b, p) == Filter(a, p) + Filter(b, p)
    decreases |a|
  {
    if a != [] {
      assert (a + b)[0] == a[0];
      assert (a + b)[1..] == a[1..] + b;
      FilterAppend(a[1..], b, p);
    } else {
      assert a + b == b;
    }
  }

  /** A single element is kept exactly when it satisfies `p`. */
  lemma FilterOne<T(!new)>(x: T, p: T -> bool)
    ensures Filter([x], p) == if p(x) then [x] else []
  {
    assert [x][1..] == [];
  }

  /** The first kept element is the first element that satisfies `p`. */
  lemma {:induction false} FilterHead<T(!new)>(s: seq<T>, p: T -> bool)
    ensures Filter(s, p) != [] <==> FirstWhere(s, p).Some?
    ensures Filter(s, p) != [] ==> Filter(s, p)[0] == FirstWhere(s, p).value
  {
    if s != [] && !p(s[0]) {
      FilterHead(s[1..], p);
    }
  }

  /** `get_file_size(link)`: a falsy link (`None` or the empty string) is never
      probed and gives 0; any other link gives what the HEAD probe reports. */
  function FileSize(probe: string -> nat, link: Option<string>): (n: nat)
    ensures link == None || link == Some("") ==> n == 0
    ensures link.Some? && link.value != "" ==> n == probe(link.value)
  {
    if link.Some? && link.value != "" then probe(link.value) else 0
  }

  /** `first() or second()` over providers that return a media record or
      `None`: an exception of the first is not caught, a record of the first
      wins, and only a `None` from the first consults the second. */
  function FirstFound<T>(first: Outcome<Option<T>>, second: Outcome<Option<T>>): (r: Outcome<Option<T>>)
    ensures first.Raised? || first.value.Some? ==> r == first
    ensures first == Returned(None) ==> r == second
  {
    if first == Returned(None) then second else first
  }
}
