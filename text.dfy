/**
 * The Python string operations the program relies on: `str.split()` with no argument,
 * `str.strip()`, `str.isnumeric()` on ASCII characters and `int()` of a token.
 */
module Text {
  import opened Wrappers

  /** The characters `str.isspace()` accepts, which `split()` and `strip()` treat as whitespace. */
  predicate IsSpace(c: char)
  {
    if c <= ' ' then '\t' <= c <= '\r' || '\U{1C}' <= c
    else '\U{85}' <= c && WideSpace(c)
  }

  /** The whitespace characters above U+0020. */
  predicate WideSpace(c: char)
  {
    || c == '\U{85}' || c == '\U{A0}' || c == '\U{1680}' || '\U{2000}' <= c <= '\U{200A}'
    || c == '\U{2028}' || c == '\U{2029}' || c == '\U{202F}' || c == '\U{205F}' || c == '\U{3000}'
  }

  /** A token `split()` can produce: non-empty and free of whitespace. */
  predicate IsWord(w: string)
  {
    w != [] && forall k :: 0 <= k < |w| ==> !IsSpace(w[k])
  }

  /** The length of the longest prefix of `s` without whitespace. */
  function WordLength(s: string): (n: nat)
    ensures n <= |s|
    ensures forall k :: 0 <= k < n ==> !IsSpace(s[k])
    ensures n < |s| ==> IsSpace(s[n])
  {
    if s == [] || IsSpace(s[0]) then 0 else 1 + WordLength(s[1..])
  }

  /** `s.split()`: the maximal runs of non-whitespace characters, in order. */
  function Split(s: string): (tokens: seq<string>)
    ensures forall k :: 0 <= k < |tokens| ==> IsWord(tokens[k])
    decreases |s|
  {
    if s == [] then []
    else if IsSpace(s[0]) then Split(s[1..])
    else
      var n := WordLength(s);
      [s[..n]] + Split(s[n..])
  }

  /** `" ".join(tokens)` */
  function Join(tokens: seq<string>): string
  {
    if tokens == [] then ""
    else if |tokens| == 1 then tokens[0]
    else tokens[0] + " " + Join(tokens[1..])
  }

  lemma {:induction false} SplitWordThenRest(w: string, rest: string)
    requires IsWord(w)
    requires rest == [] || IsSpace(rest[0])
    ensures Split(w + rest) == [w] + Split(rest)
  {
    var s := w + rest;
    assert WordLength(s) == |w| by {
      WordLengthOfWord(w, rest);
    }
    assert s[..|w|] == w && s[|w|..] == rest;
  }

  lemma {:induction false} WordLengthOfWord(w: string, rest: string)
    requires forall k :: 0 <= k < |w| ==> !IsSpace(w[k])
    requires rest == [] || IsSpace(rest[0])
    ensures WordLength(w + rest) == |w|
  {
    if w != [] {
      assert (w + rest)[1..] == w[1..] + rest;
      WordLengthOfWord(w[1..], rest);
    }
  }

  /** Splitting the tokens joined by single spaces gives the tokens back. */
  lemma {:induction false} SplitJoin(tokens: seq<string>)
    requires forall k :: 0 <= k < |tokens| ==> IsWord(tokens[k])
    ensures Split(Join(tokens)) == tokens
  {
    if |tokens| == 1 {
      SplitWordThenRest(tokens[0], "");
      assert tokens[0] + "" == tokens[0];
    } else if |tokens| > 1 {
      var rest := Join(tokens[1..]);
      SplitWordThenRest(tokens[0], " " + rest);
      assert tokens[0] + " " + rest == tokens[0] + (" " + rest);
      assert (" " + rest)[1..] == rest;
      SplitJoin(tokens[1..]);
    }
  }

  /** `s.lstrip()` */
  function StripLeading(s: string): string
  {
    if s != [] && IsSpace(s[0]) then StripLeading(s[1..]) else s
  }

  /** `s.rstrip()` */
  function StripTrailing(s: string): string
  {
    if s != [] && IsSpace(s[|s| - 1]) then StripTrailing(s[..|s| - 1]) else s
  }

  /** `s.strip()` */
  function Strip(s: string): string
  {
    StripTrailing(StripLeading(s))
  }

  /** `lstrip()` drops exactly the leading run of whitespace. */
  lemma {:induction false} StripLeadingSpec(s: string)
    ensures var r := StripLeading(s);
      && |r| <= |s| && r == s[|s| - |r|..]
      && (forall k :: 0 <= k < |s| - |r| ==> IsSpace(s[k]))
      && (r != [] ==> !IsSpace(r[0]))
  {
    if s != [] && IsSpace(s[0]) {
      var t := s[1..];
      StripLeadingSpec(t);
      var r := StripLeading(t);
      assert t[|t| - |r|..] == s[|s| - |r|..];
      forall k | 0 <= k < |s| - |r|
        ensures IsSpace(s[k])
      {
        if k > 0 {
          assert s[k] == t[k - 1];
        }
      }
    }
  }

  /** `rstrip()` drops exactly the trailing run of whitespace. */
  lemma {:induction false} StripTrailingSpec(s: string)
    ensures var r := StripTrailing(s);
      && |r| <= |s| && r == s[..|r|]
      && (forall k :: |r| <= k < |s| ==> IsSpace(s[k]))
      && (r != [] ==> !IsSpace(r[|r| - 1]))
  {
    if s != [] && IsSpace(s[|s| - 1]) {
      StripTrailingSpec(s[..|s| - 1]);
    }
  }

  /** `strip()` keeps the slice of `s` between its leading and trailing whitespace. */
  lemma StripSpec(s: string)
    ensures var r := Strip(s);
      exists lo, hi :: 0 <= lo <= hi <= |s| && r == s[lo..hi]
        && (forall k :: 0 <= k < lo ==> IsSpace(s[k]))
        && (forall k :: hi <= k < |s| ==> IsSpace(s[k]))
        && (r != [] ==> !IsSpace(r[0]) && !IsSpace(r[|r| - 1]))
  {
    var m := StripLeading(s);
    StripLeadingSpec(s);
    StripTrailingSpec(m);
    var lo := |s| - |m|;
    var hi := lo + |StripTrailing(m)|;
    assert Strip(s) == s[lo..hi];
  }

  /** A line of words joined by single spaces is read back, stripped and split, as those words. */
  lemma ReadJoin(tokens: seq<string>)
    requires forall k :: 0 <= k < |tokens| ==> IsWord(tokens[k])
    ensures Split(Strip(Join(tokens))) == tokens
  {
    StripJoin(tokens);
    SplitJoin(tokens);
  }

  lemma WordsCons(first: string, rest: seq<string>)
    requires IsWord(first) && forall k :: 0 <= k < |rest| ==> IsWord(rest[k])
    ensures forall k :: 0 <= k < |[first] + rest| ==> IsWord(([first] + rest)[k])
  {
  }

  /** Joined words have no whitespace at either end, so stripping them changes nothing. */
  lemma {:induction false} StripJoin(tokens: seq<string>)
    requires forall k :: 0 <= k < |tokens| ==> IsWord(tokens[k])
    ensures Strip(Join(tokens)) == Join(tokens)
  {
    var s := Join(tokens);
    JoinEnds(tokens);
    assert StripLeading(s) == s;
  }

  lemma {:induction false} JoinEnds(tokens: seq<string>)
    requires forall k :: 0 <= k < |tokens| ==> IsWord(tokens[k])
    ensures Join(tokens) != [] ==> !IsSpace(Join(tokens)[0]) && !IsSpace(Join(tokens)[|Join(tokens)| - 1])
  {
    if |tokens| > 1 {
      JoinEnds(tokens[1..]);
      var rest := Join(tokens[1..]);
      assert Join(tokens) == tokens[0] + (" " + rest);
    }
  }

  /** `c.isnumeric()`, restricted to ASCII. */
  predicate IsDigit(c: char)
  {
    '0' <= c <= '9'
  }

  predicate IsDecimal(s: string)
  {
    s != [] && forall k :: 0 <= k < |s| ==> IsDigit(s[k])
  }

  /** The value of a string of decimal digits, most significant first. */
  function DecimalValue(s: string): int
    requires forall k :: 0 <= k < |s| ==> IsDigit(s[k])
  {
    if s == [] then 0 else 10 * DecimalValue(s[..|s| - 1]) + (s[|s| - 1] as int - '0' as int)
  }

  /** `int(token)`: an optional sign followed by decimal digits; anything else raises ValueError. */
  function ParseInt(token: string): (r: Option<int>)
    ensures r.Some? <==> IsDecimal(token) || (|token| > 1 && (token[0] == '-' || token[0] == '+') && IsDecimal(token[1..]))
  {
    if IsDecimal(token) then Some(DecimalValue(token))
    else if |token| > 1 && token[0] == '-' && IsDecimal(token[1..]) then Some(-DecimalValue(token[1..]))
    else if |token| > 1 && token[0] == '+' && IsDecimal(token[1..]) then Some(DecimalValue(token[1..]))
    else None
  }

  /** `str(n)` for an integer: the partner `ParseInt` is checked against. */
  function ShowInt(n: int): string
  {
    if n < 0 then "-" + ShowNat(-n) else ShowNat(n)
  }

  function ShowNat(n: nat): (s: string)
    ensures IsDecimal(s)
  {
    var last := [(('0' as int) + n % 10) as char];
    if n < 10 then last else ShowNat(n / 10) + last
  }

  lemma {:induction false} DecimalValueShowNat(n: nat)
    ensures DecimalValue(ShowNat(n)) == n
  {
    var s := ShowNat(n);
    if n >= 10 {
      DecimalValueShowNat(n / 10);
      assert s[..|s| - 1] == ShowNat(n / 10);
    }
  }

  /** `int(str(n)) == n` */
  lemma ParseShowInt(n: int)
    ensures ParseInt(ShowInt(n)) == Some(n)
  {
    if n < 0 {
      DecimalValueShowNat(-n);
      assert ShowInt(n)[1..] == ShowNat(-n);
    } else {
      DecimalValueShowNat(n);
    }
  }
}
