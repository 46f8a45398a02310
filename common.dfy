/** Values and string helpers shared by every page of the course-platform client. */
module Common {

  datatype Option<T> = None | Some(value: T)

  /** The severity argument of `showToast`. */
  datatype Severity = SuccessToast | InfoToast | WarnToast | ErrorToast

  /** One notification shown through the toast context. */
  datatype Toast = Toast(severity: Severity, summary: string, detail: string)

  /** The response part of a failed request: its status and the two text fields the pages read. */
  datatype HttpResponse = HttpResponse(status: int, message: Option<string>, text: Option<string>)

  /** A rejected request; `response` is absent when no response arrived (network failure). */
  datatype HttpError = HttpError(response: Option<HttpResponse>)

  /** The outcome of one request, given to the model as an input. */
  datatype Outcome<T> = Ok(value: T) | Failed(error: HttpError)

  /** JavaScript truthiness of an optional string: present and non-empty. */
  predicate Truthy(s: Option<string>)
  {
    s.Some? && s.value != ""
  }

  /** `s || fallback` on an optional string. */
  function OrDefault(s: Option<string>, fallback: string): (r: string)
    ensures Truthy(s) ==> r == s.value
    ensures !Truthy(s) ==> r == fallback
  {
    if Truthy(s) then s.value else fallback
  }

  /** `err.response?.data?.message || fallback` */
  function MessageOr(e: HttpError, fallback: string): (r: string)
    ensures r == fallback || (e.response.Some? && e.response.value.message == Some(r) && r != "")
    ensures e.response.Some? && Truthy(e.response.value.message) ==> r == e.response.value.message.value
    ensures (e.response.None? || !Truthy(e.response.value.message)) ==> r == fallback
  {
    if e.response.Some? && Truthy(e.response.value.message) then e.response.value.message.value else fallback
  }

  /** `err.response?.data?.message || err.response?.data?.text || fallback` */
  function MessageTextOr(e: HttpError, fallback: string): (r: string)
    ensures e.response.Some? && Truthy(e.response.value.message) ==> r == e.response.value.message.value
    ensures e.response.Some? && !Truthy(e.response.value.message) && Truthy(e.response.value.text)
            ==> r == e.response.value.text.value
    ensures (e.response.None? || (!Truthy(e.response.value.message) && !Truthy(e.response.value.text)))
            ==> r == fallback
  {
    if e.response.Some? && Truthy(e.response.value.message) then e.response.value.message.value
    else if e.response.Some? && Truthy(e.response.value.text) then e.response.value.text.value
    else fallback
  }

  /** `err.response?.status === code` */
  predicate StatusIs(e: HttpError, code: int)
  {
    e.response.Some? && e.response.value.status == code
  }

  // ---------------------------------------------------------------------------
  // Whitespace, trimming and blankness

  /** The characters that JavaScript's `trim` removes and that `\s` matches in a regular expression. */
  predicate IsSpace(c: char)
  {
    || c == '\t' || c == '\n' || c == '\U{000B}' || c == '\U{000C}' || c == '\r' || c == ' '
    || c == '\U{00A0}' || c == '\U{1680}' || ('\U{2000}' <= c <= '\U{200A}')
    || c == '\U{2028}' || c == '\U{2029}' || c == '\U{202F}' || c == '\U{205F}'
    || c == '\U{3000}' || c == '\U{FEFF}'
  }

  /** Every character of `s` is whitespace (the empty string included). */
  predicate IsBlank(s: string)
  {
    forall i | 0 <= i < |s| :: IsSpace(s[i])
  }

  /** `s.trimStart()`: the leading white space is cut, and what remains starts with a non-space. */
  function TrimStart(s: string): (r: string)
    ensures |r| <= |s| && r == s[|s| - |r|..]
    ensures IsBlank(s[..|s| - |r|])
    ensures r == [] || !IsSpace(r[0])
  {
    if s != [] && IsSpace(s[0]) then TrimStart(s[1..]) else s
  }

  /** `s.trimEnd()`: the trailing white space is cut, and what remains ends with a non-space. */
  function TrimEnd(s: string): (r: string)
    ensures |r| <= |s| && r == s[..|r|]
    ensures IsBlank(s[|r|..])
    ensures r == [] || !IsSpace(r[|r| - 1])
  {
    if s != [] && IsSpace(s[|s| - 1]) then TrimEnd(s[..|s| - 1]) else s
  }

  /** `s.trim()` */
  function Trim(s: string): string
  {
    TrimEnd(TrimStart(s))
  }

  lemma {:induction false} TrimStartEmptyIffBlank(s: string)
    ensures TrimStart(s) == [] <==> IsBlank(s)
  {
    var r := TrimStart(s);
    if r == [] {
      assert s[..|s|] == s;
    } else {
      assert r[0] == s[|s| - |r|];
    }
  }

  lemma {:induction false} TrimEndEmptyIffBlank(s: string)
    ensures TrimEnd(s) == [] ==> IsBlank(s)
    ensures IsBlank(s) ==> TrimEnd(s) == []
  {
    var r := TrimEnd(s);
    if r == [] {
      assert s[0..] == s;
    } else {
      assert r[|r| - 1] == s[|r| - 1];
    }
  }

  /** `!s.trim()` holds exactly when every character of `s` is whitespace. */
  lemma TrimEmptyIffBlank(s: string)
    ensures Trim(s) == [] <==> IsBlank(s)
  {
    TrimStartEmptyIffBlank(s);
    var t := TrimStart(s);
    TrimEndEmptyIffBlank(t);
    if IsBlank(t) && !IsBlank(s) {
      TrimStartKeepsLeadingNonSpace(s);
    }
  }

  lemma {:induction false} TrimStartKeepsLeadingNonSpace(s: string)
    requires !IsBlank(s)
    ensures !IsBlank(TrimStart(s))
  {
    if s != [] && IsSpace(s[0]) {
      assert !IsBlank(s[1..]) by {
        var i :| 0 <= i < |s| && !IsSpace(s[i]);
        assert s[1..][i - 1] == s[i];
      }
      TrimStartKeepsLeadingNonSpace(s[1..]);
    }
  }

  // ---------------------------------------------------------------------------
  // Prefixes and upper-casing

  /** `s.startsWith(p)` */
  predicate StartsWith(s: string, p: string)
  {
    |p| <= |s| && s[..|p|] == p
  }

  /**
   * The upper-case form of one character as `toUpperCase` gives it, for the characters whose
   * upper-case form is made of ASCII letters; every other character is kept, which cannot make
   * a string equal to, or different from, an ASCII upper-case word.
   */
  function UpperChar(c: char): string
  {
    if 'a' <= c <= 'z' then [(c as int - 32) as char]
    else if c == '\U{0131}' then "I"     // dotless i
    else if c == '\U{017F}' then "S"     // long s
    else if c == '\U{00DF}' then "SS"    // sharp s
    else if c == '\U{FB00}' then "FF"
    else if c == '\U{FB01}' then "FI"
    else if c == '\U{FB02}' then "FL"
    else if c == '\U{FB03}' then "FFI"
    else if c == '\U{FB04}' then "FFL"
    else if c == '\U{FB05}' || c == '\U{FB06}' then "ST"
    else [c]
  }

  /** `s.toUpperCase()` */
  function ToUpper(s: string): string
  {
    if s == [] then [] else UpperChar(s[0]) + ToUpper(s[1..])
  }

  lemma {:induction false} ToUpperAppend(a: string, b: string)
    ensures ToUpper(a + b) == ToUpper(a) + ToUpper(b)
  {
    if a == [] {
      assert a + b == b;
    } else {
      assert (a + b)[0] == a[0];
      assert (a + b)[1..] == a[1..] + b;
      ToUpperAppend(a[1..], b);
      calc {
        ToUpper(a + b);
        UpperChar(a[0]) + ToUpper(a[1..] + b);
        UpperChar(a[0]) + (ToUpper(a[1..]) + ToUpper(b));
        (UpperChar(a[0]) + ToUpper(a[1..])) + ToUpper(b);
      }
    }
  }

  lemma UpperCharIsUpper(c: char)
    ensures ToUpper(UpperChar(c)) == UpperChar(c)
  {
    var u := UpperChar(c);
    if |u| == 1 {
      assert ToUpper(u) == UpperChar(u[0]) + ToUpper([]);
    } else if |u| == 2 {
      assert ToUpper(u) == UpperChar(u[0]) + ToUpper(u[1..]);
      assert ToUpper(u[1..]) == UpperChar(u[1]) + ToUpper([]);
    } else {
      assert ToUpper(u) == UpperChar(u[0]) + ToUpper(u[1..]);
      assert ToUpper(u[1..]) == UpperChar(u[1]) + ToUpper(u[2..]);
      assert ToUpper(u[2..]) == UpperChar(u[2]) + ToUpper([]);
    }
  }

  /** A word of upper-case ASCII letters is its own upper-case form. */
  lemma {:induction false} ToUpperKeepsUpperAscii(s: string)
    requires forall i | 0 <= i < |s| :: 'A' <= s[i] <= 'Z'
    ensures ToUpper(s) == s
  {
    if s != [] {
      ToUpperKeepsUpperAscii(s[1..]);
      assert UpperChar(s[0]) == [s[0]];
      assert s == [s[0]] + s[1..];
    }
  }

  /** Upper-casing twice is upper-casing once, so a match after `toUpperCase` ignores case. */
  lemma {:induction false} ToUpperIdempotent(s: string)
    ensures ToUpper(ToUpper(s)) == ToUpper(s)
  {
    if s != [] {
      ToUpperAppend(UpperChar(s[0]), ToUpper(s[1..]));
      UpperCharIsUpper(s[0]);
      ToUpperIdempotent(s[1..]);
    }
  }

  // ---------------------------------------------------------------------------
  // Sequences

  /** `s.slice(start, end)` for the non-negative bounds the pages pass. */
  function Slice<T>(s: seq<T>, start: nat, end: nat): (r: seq<T>)
    ensures |r| == if start <= end && start <= |s| then (if end <= |s| then end else |s|) - start else 0
    ensures forall k | 0 <= k < |r| :: r[k] == s[start + k]
  {
    var lo := if start <= |s| then start else |s|;
    var hi := if end <= |s| then end else |s|;
    if lo <= hi then s[lo..hi] else []
  }

  /** Two adjacent slices make up the slice that spans both. */
  lemma SliceSplit<T>(s: seq<T>, a: nat, b: nat, c: nat)
    requires a <= b <= c
    ensures Slice(s, a, b) + Slice(s, b, c) == Slice(s, a, c)
  {
    var l, r, all := Slice(s, a, b), Slice(s, b, c), Slice(s, a, c);
    assert |l + r| == |all|;
    forall k | 0 <= k < |all| ensures (l + r)[k] == all[k] {
      if k < |l| {
      } else {
        assert (l + r)[k] == r[k - |l|] == s[b + (k - |l|)];
      }
    }
  }

  /** `s.filter(keep)` */
  function Filter<T>(s: seq<T>, keep: T -> bool): (r: seq<T>)
    ensures |r| <= |s|
    ensures forall x | x in r :: x in s && keep(x)
    ensures forall x | x in s && keep(x) :: x in r
  {
    if s == [] then []
    else if keep(s[0]) then [s[0]] + Filter(s[1..], keep)
    else Filter(s[1..], keep)
  }

  /** Filtering distributes over concatenation. */
  lemma {:induction false} FilterAppend<T>(a: seq<T>, b: seq<T>, keep: T -> bool)
    ensures Filter(a + b, keep) == Filter(a, keep) + Filter(b, keep)
  {
    if a == [] {
      assert a + b == b;
    } else {
      assert (a + b)[0] == a[0];
      assert (a + b)[1..] == a[1..] + b;
      FilterAppend(a[1..], b, keep);
    }
  }

  /** A filter that accepts every element returns the sequence unchanged. */
  lemma {:induction false} FilterKeepsAll<T>(s: seq<T>, keep: T -> bool)
    requires forall i | 0 <= i < |s| :: keep(s[i])
    ensures Filter(s, keep) == s
  {
    if s != [] {
      FilterKeepsAll(s[1..], keep);
    }
  }

  /** The positions of `s` whose element `keep` accepts, in increasing order. */
  function KeptIndices<T>(s: seq<T>, keep: T -> bool, from: nat): (idx: seq<nat>)
    decreases |s| - from
  {
    if from >= |s| then []
    else if keep(s[from]) then [from] + KeptIndices(s, keep, from + 1)
    else KeptIndices(s, keep, from + 1)
  }

  /**
   * `Filter(s[from..], keep)` is exactly the accepted elements of `s[from..]` in their original
   * order: it picks, at strictly increasing positions, every position whose element is accepted.
   */
  lemma FilterKeepsOrder<T>(s: seq<T>, keep: T -> bool, from: nat)
    requires from <= |s|
    ensures var r, idx := Filter(s[from..], keep), KeptIndices(s, keep, from);
      && |idx| == |r|
      && (forall k | 0 <= k < |idx| :: from <= idx[k] < |s| && r[k] == s[idx[k]])
      && (forall k, m | 0 <= k < m < |idx| :: idx[k] < idx[m])
      && (forall p | from <= p < |s| :: keep(s[p]) <==> p in idx)
  {
    KeptIndicesAscend(s, keep, from);
    FilterAtKept(s, keep, from);
  }

  /** The kept positions from `from` on are in range, strictly increasing, and exactly the accepted ones. */
  lemma {:induction false} KeptIndicesAscend<T>(s: seq<T>, keep: T -> bool, from: nat)
    requires from <= |s|
    ensures var idx := KeptIndices(s, keep, from);
      && (forall k | 0 <= k < |idx| :: from <= idx[k] < |s|)
      && (forall k, m | 0 <= k < m < |idx| :: idx[k] < idx[m])
      && (forall p | from <= p < |s| :: keep(s[p]) <==> p in idx)
    decreases |s| - from
  {
    if from < |s| {
      KeptIndicesAscend(s, keep, from + 1);
      var idx', idx := KeptIndices(s, keep, from + 1), KeptIndices(s, keep, from);
      if keep(s[from]) {
        assert idx == [from] + idx';
        forall k, m | 0 <= k < m < |idx| ensures idx[k] < idx[m] {
          assert idx[m] == idx'[m - 1];
          if k > 0 { assert idx[k] == idx'[k - 1]; }
        }
      } else {
        assert idx == idx';
      }
    }
  }

  /** The filter's `k`-th element is the element at the `k`-th kept position. */
  lemma {:induction false} FilterAtKept<T>(s: seq<T>, keep: T -> bool, from: nat)
    requires from <= |s|
    ensures var r, idx := Filter(s[from..], keep), KeptIndices(s, keep, from);
      |idx| == |r| && forall k | 0 <= k < |idx| :: idx[k] < |s| && r[k] == s[idx[k]]
    decreases |s| - from
  {
    if from < |s| {
      FilterAtKept(s, keep, from + 1);
      var t := s[from..];
      assert t[1..] == s[from + 1..];
      assert t[0] == s[from];
      var r', idx' := Filter(s[from + 1..], keep), KeptIndices(s, keep, from + 1);
      var r, idx := Filter(t, keep), KeptIndices(s, keep, from);
      if keep(s[from]) {
        assert r == [s[from]] + r';
        assert idx == [from] + idx';
        forall k | 0 <= k < |idx| ensures idx[k] < |s| && r[k] == s[idx[k]] {
          if k > 0 { assert idx[k] == idx'[k - 1] && r[k] == r'[k - 1]; }
        }
      } else {
        assert r == r' && idx == idx';
      }
    }
  }

  // ---------------------------------------------------------------------------
  // Decimal numbers in paths and payloads

  function DigitChar(d: nat): char
    requires d < 10
  {
    ('0' as int + d) as char
  }

  predicate IsDigit(c: char)
  {
    '0' <= c <= '9'
  }

  /** `String(n)` for a non-negative integer: its decimal digits without leading zeros. */
  function Decimal(n: nat): (r: string)
    ensures |r| >= 1 && forall i | 0 <= i < |r| :: IsDigit(r[i])
  {
    if n < 10 then [DigitChar(n)] else Decimal(n / 10) + [DigitChar(n % 10)]
  }

  /** The value of a non-empty string of decimal digits; `None` for anything else. */
  function ParseDecimal(s: string): (r: Option<nat>)
    ensures r.Some? <==> |s| >= 1 && forall i | 0 <= i < |s| :: IsDigit(s[i])
  {
    if s == [] || !IsDigit(s[|s| - 1]) then None
    else if |s| == 1 then Some(s[0] as int - '0' as int)
    else match ParseDecimal(s[..|s| - 1])
      case None => None
      case Some(v) => Some(v * 10 + (s[|s| - 1] as int - '0' as int))
  }

  /** Reading back the digits that `Decimal` writes gives the number again. */
  lemma {:induction false} ParseDecimalOfDecimal(n: nat)
    ensures ParseDecimal(Decimal(n)) == Some(n)
  {
    if n >= 10 {
      var d := Decimal(n);
      assert d[..|d| - 1] == Decimal(n / 10);
      ParseDecimalOfDecimal(n / 10);
    }
  }
}
