/**
 * The parts of Go's `strings`, `strconv` and `unicode` packages that the tool
 * relies on, over strings modelled as sequences of Unicode characters.
 */
module Text {
  import opened Wrappers

  /** Go's `unicode.IsSpace`: the Latin-1 white space and the Unicode space separators. */
  predicate IsSpace(c: char) {
    || c == ' ' || c == '\t' || c == '\n' || c == '\U{0B}' || c == '\U{0C}' || c == '\r'
    || c == '\U{85}' || c == '\U{A0}' || c == '\U{1680}'
    || ('\U{2000}' <= c <= '\U{200A}')
    || c == '\U{2028}' || c == '\U{2029}' || c == '\U{202F}' || c == '\U{205F}' || c == '\U{3000}'
  }

  predicate NoSpace(s: string) {
    forall i :: 0 <= i < |s| ==> !IsSpace(s[i])
  }

  lemma NoSpaceConcat(x: string, y: string)
    requires NoSpace(x) && NoSpace(y)
    ensures NoSpace(x + y)
  {
    forall i | 0 <= i < |x + y| ensures !IsSpace((x + y)[i]) {
      if i >= |x| {
        assert (x + y)[i] == y[i - |x|];
      }
    }
  }

  // ---------------------------------------------------------------------------
  // Prefixes and substrings
  // ---------------------------------------------------------------------------

  /** `strings.HasPrefix` */
  predicate HasPrefix(s: string, p: string) {
    |p| <= |s| && s[..|p|] == p
  }

  /** `strings.TrimPrefix`: removes one leading copy of `p`, if there is one. */
  function TrimPrefix(s: string, p: string): (r: string)
    ensures HasPrefix(s, p) ==> s == p + r
    ensures !HasPrefix(s, p) ==> r == s
  {
    if HasPrefix(s, p) then s[|p|..] else s
  }

  /** `key` occurs in `s` starting at index `i`. */
  predicate OccursAt(s: string, key: string, i: nat) {
    i + |key| <= |s| && s[i..i + |key|] == key
  }

  ghost predicate Absent(s: string, key: string) {
    forall i: nat :: !OccursAt(s, key, i)
  }

  /** `strings.Index`: the first index at which `key` occurs in `s`. */
  function IndexOf(s: string, key: string): (r: Option<nat>)
    ensures r.Some? ==> OccursAt(s, key, r.value)
    ensures r.Some? ==> forall j: nat :: j < r.value ==> !OccursAt(s, key, j)
    ensures r.None? <==> Absent(s, key)
  {
    IndexFrom(s, key, 0)
  }

  function IndexFrom(s: string, key: string, from: nat): (r: Option<nat>)
    ensures r.Some? ==> from <= r.value && OccursAt(s, key, r.value)
    ensures r.Some? ==> forall j: nat :: from <= j < r.value ==> !OccursAt(s, key, j)
    ensures r.None? ==> forall j: nat :: from <= j ==> !OccursAt(s, key, j)
    decreases |s| - from
  {
    if from + |key| > |s| then None
    else if OccursAt(s, key, from) then Some(from)
    else IndexFrom(s, key, from + 1)
  }

  /** `strings.Contains` */
  predicate Contains(s: string, key: string) {
    IndexOf(s, key).Some?
  }

  function Shift(o: Option<nat>, k: nat): Option<nat> {
    match o
    case None => None
    case Some(i) => Some(i + k)
  }

  /** A prefix is found at index 0. */
  lemma IndexOfPrefix(s: string, key: string)
    requires HasPrefix(s, key)
    ensures IndexOf(s, key) == Some(0)
  {
    assert OccursAt(s, key, 0);
  }

  /** `key` occurs inside `a + key + b`. */
  lemma ContainsInside(a: string, key: string, b: string)
    ensures Contains(a + key + b, key)
  {
    var s := a + key + b;
    assert s[|a|..|a| + |key|] == key;
    assert OccursAt(s, key, |a|);
  }

  /** An occurrence inside either part of a concatenation is an occurrence in the whole. */
  lemma OccursInConcat(a: string, b: string, key: string, i: nat)
    ensures OccursAt(a, key, i) ==> OccursAt(a + b, key, i)
    ensures OccursAt(b, key, i) ==> OccursAt(a + b, key, |a| + i)
  {
    if OccursAt(a, key, i) {
      assert (a + b)[i..i + |key|] == a[i..i + |key|];
    }
    if OccursAt(b, key, i) {
      assert (a + b)[|a| + i..|a| + i + |key|] == b[i..i + |key|];
    }
  }

  /** A key inside one of the joined words is inside the joined text. */
  lemma {:induction false} JoinContains(ws: seq<string>, sep: string, k: nat, key: string)
    requires k < |ws| && Contains(ws[k], key)
    ensures Contains(Join(ws, sep), key)
  {
    if |ws| > 1 {
      var rest := Join(ws[1..], sep);
      assert Join(ws, sep) == ws[0] + (sep + rest);
      if k == 0 {
        OccursInConcat(ws[0], sep + rest, key, IndexOf(ws[0], key).value);
      } else {
        JoinContains(ws[1..], sep, k - 1, key);
        var i := IndexOf(rest, key).value;
        OccursInConcat(sep, rest, key, i);
        OccursInConcat(ws[0], sep + rest, key, |sep| + i);
      }
    }
  }

  /** Joined non-empty words start with the first word's first character and end with the last word's last one. */
  lemma {:induction false} JoinEnds(ws: seq<string>, sep: string)
    requires |ws| >= 1 && forall i :: 0 <= i < |ws| ==> ws[i] != []
    ensures var s := Join(ws, sep); |s| > 0 && s[0] == ws[0][0] && s[|s| - 1] == ws[|ws| - 1][|ws[|ws| - 1]| - 1]
  {
    if |ws| > 1 {
      JoinEnds(ws[1..], sep);
    }
  }

  lemma NoStraddle(a: string, c: char, b: string, key: string, i: nat)
    requires Absent(a, key) && c !in key && i <= |a|
    ensures !OccursAt(a + [c] + b, key, i)
  {
    var t := a + [c] + b;
    if i + |key| <= |a| {
      assert !OccursAt(a, key, i);
      assert t[i..i + |key|] == a[i..i + |key|];
    } else if i + |key| <= |t| {
      assert t[i..i + |key|][|a| - i] == t[|a|] == c;
    }
  }

  lemma OccursAfter(a: string, c: char, b: string, key: string, j: nat)
    ensures OccursAt(a + [c] + b, key, j + |a| + 1) == OccursAt(b, key, j)
  {
    var t := a + [c] + b;
    if j + |key| <= |b| {
      assert t[j + |a| + 1..j + |a| + 1 + |key|] == b[j..j + |key|];
    }
  }

  /**
   * The search for `key` in `a + [c] + b` passes over `a` when `key` does not
   * occur in `a` and cannot straddle the separator `c`.
   */
  lemma IndexAcross(a: string, c: char, b: string, key: string)
    requires Absent(a, key) && c !in key
    ensures IndexOf(a + [c] + b, key) == Shift(IndexOf(b, key), |a| + 1)
  {
    var t := a + [c] + b;
    match IndexOf(b, key)
    case None =>
      forall i: nat ensures !OccursAt(t, key, i) {
        OccursAcross(a, c, b, key, i);
      }
    case Some(k) =>
      OccursAcross(a, c, b, key, k + |a| + 1);
      forall j: nat | j < k + |a| + 1 ensures !OccursAt(t, key, j) {
        OccursAcross(a, c, b, key, j);
      }
      IndexOfFirst(t, key, k + |a| + 1);
  }

  /** Where `key` occurs in `a + [c] + b` when it cannot occur in `a` or straddle `c`. */
  lemma OccursAcross(a: string, c: char, b: string, key: string, i: nat)
    requires Absent(a, key) && c !in key
    ensures OccursAt(a + [c] + b, key, i) <==> i > |a| && OccursAt(b, key, i - |a| - 1)
  {
    if i <= |a| {
      NoStraddle(a, c, b, key, i);
    } else {
      OccursAfter(a, c, b, key, i - |a| - 1);
    }
  }

  /** The first occurrence is the one `IndexOf` finds. */
  lemma IndexOfFirst(s: string, key: string, i: nat)
    requires OccursAt(s, key, i)
    requires forall j: nat :: j < i ==> !OccursAt(s, key, j)
    ensures IndexOf(s, key) == Some(i)
  {
  }

  /**
   * `key` cannot occur in `a` when the last character of `key` appears in `a`
   * only at indices smaller than `|key| - 1`.
   */
  lemma AbsentByLastChar(a: string, key: string)
    requires |key| > 0
    requires forall j :: |key| - 1 <= j < |a| ==> a[j] != key[|key| - 1]
    ensures Absent(a, key)
  {
    forall i: nat ensures !OccursAt(a, key, i) {
      if i + |key| <= |a| {
        assert a[i..i + |key|][|key| - 1] == a[i + |key| - 1];
      }
    }
  }

  // ---------------------------------------------------------------------------
  // White space: TrimSpace, Fields and Join
  // ---------------------------------------------------------------------------

  /** Drops leading white space. */
  function TrimLeft(s: string): (r: string)
    ensures |r| <= |s| && r == s[|s| - |r|..]
    ensures r == [] || !IsSpace(r[0])
    ensures forall i :: 0 <= i < |s| - |r| ==> IsSpace(s[i])
  {
    if s != [] && IsSpace(s[0]) then TrimLeft(s[1..]) else s
  }

  /** Drops trailing white space. */
  function TrimRight(s: string): (r: string)
    ensures |r| <= |s| && r == s[..|r|]
    ensures r == [] || !IsSpace(r[|r| - 1])
    ensures forall i :: |r| <= i < |s| ==> IsSpace(s[i])
  {
    if s != [] && IsSpace(s[|s| - 1]) then TrimRight(s[..|s| - 1]) else s
  }

  /** `strings.TrimSpace` */
  function TrimSpace(s: string): string {
    TrimRight(TrimLeft(s))
  }

  lemma TrimSpaceUnchanged(s: string)
    requires s == [] || (!IsSpace(s[0]) && !IsSpace(s[|s| - 1]))
    ensures TrimSpace(s) == s
  {
  }

  /** The longest prefix of `s` without white space. */
  function Word(s: string): (w: string)
    ensures |w| <= |s| && w == s[..|w|] && NoSpace(w)
    ensures |w| == |s| || IsSpace(s[|w|])
    ensures s != [] && !IsSpace(s[0]) ==> w != []
  {
    if s == [] || IsSpace(s[0]) then [] else [s[0]] + Word(s[1..])
  }

  /** `strings.Fields`: the maximal runs of non-white-space characters, in order. */
  function Fields(s: string): (fs: seq<string>)
    ensures AllWords(fs)
    decreases |s|
  {
    var t := TrimLeft(s);
    if t == [] then []
    else
      var w := Word(t);
      var rest := Fields(t[|w|..]);
      WordsCons(w, rest);
      [w] + rest
  }

  /** Every element is a non-empty word without white space. */
  predicate AllWords(fs: seq<string>) {
    forall i :: 0 <= i < |fs| ==> fs[i] != [] && NoSpace(fs[i])
  }

  lemma WordsCons(w: string, rest: seq<string>)
    requires w != [] && NoSpace(w) && AllWords(rest)
    ensures AllWords([w] + rest)
  {
    forall i | 0 < i < |[w] + rest| ensures ([w] + rest)[i] == rest[i - 1] { }
  }

  /** `strings.Join` */
  function Join(ws: seq<string>, sep: string): string {
    if ws == [] then []
    else if |ws| == 1 then ws[0]
    else ws[0] + sep + Join(ws[1..], sep)
  }

  lemma {:induction false} WordOf(w: string, rest: string)
    requires w != [] && NoSpace(w)
    requires rest == [] || IsSpace(rest[0])
    ensures Word(w + rest) == w
  {
    var s := w + rest;
    assert s[0] == w[0] && s[1..] == w[1..] + rest;
    if |w| > 1 {
      WordOf(w[1..], rest);
      assert w == [w[0]] + w[1..];
    }
  }

  lemma FieldsSkipsSpace(x: string)
    ensures Fields(" " + x) == Fields(x)
  {
    var s := " " + x;
    assert s[0] == ' ' && s[1..] == x;
    assert TrimLeft(s) == TrimLeft(s[1..]);
  }

  /** A word without white space, followed by a space, is the first field. */
  lemma FieldsCons(w: string, rest: string)
    requires w != [] && NoSpace(w)
    ensures Fields(w + " " + rest) == [w] + Fields(rest)
  {
    var s := w + " " + rest;
    assert TrimLeft(s) == s;
    WordOf(w, " " + rest);
    assert s == w + (" " + rest);
    assert s[|w|..] == " " + rest;
    FieldsSkipsSpace(rest);
  }

  lemma FieldsSingle(w: string)
    requires w != [] && NoSpace(w)
    ensures Fields(w) == [w]
  {
    assert TrimLeft(w) == w;
    WordOf(w, []);
    assert w + [] == w;
    assert w[|w|..] == [];
  }

  /** Splitting words joined by single spaces gives the words back. */
  lemma {:induction false} FieldsOfJoin(ws: seq<string>)
    requires forall i :: 0 <= i < |ws| ==> ws[i] != [] && NoSpace(ws[i])
    ensures Fields(Join(ws, " ")) == ws
  {
    if |ws| == 1 {
      FieldsSingle(ws[0]);
    } else if |ws| > 1 {
      var rest := Join(ws[1..], " ");
      assert Join(ws, " ") == ws[0] + " " + rest;
      FieldsOfJoin(ws[1..]);
      FieldsCons(ws[0], rest);
      assert ws == [ws[0]] + ws[1..];
    }
  }

  // ---------------------------------------------------------------------------
  // Splitting on a character
  // ---------------------------------------------------------------------------

  function IndexOfChar(s: string, c: char): (r: Option<nat>)
    ensures r.Some? ==> r.value < |s| && s[r.value] == c && c !in s[..r.value]
    ensures r.None? <==> c !in s
  {
    if s == [] then None
    else if s[0] == c then Some(0)
    else
      match IndexOfChar(s[1..], c)
      case None => None
      case Some(i) => assert s[..i + 1] == [s[0]] + s[1..][..i]; Some(i + 1)
  }

  /** The first `c` of `s` is at `i`. */
  lemma {:induction false} IndexOfCharAt(s: string, c: char, i: nat)
    requires i < |s| && s[i] == c && c !in s[..i]
    ensures IndexOfChar(s, c) == Some(i)
  {
    assert s[..i + 1][i] == c;
  }

  /** `strings.Split` with a one-character separator. */
  function SplitOn(s: string, c: char): (parts: seq<string>)
    ensures |parts| >= 1
    ensures forall i :: 0 <= i < |parts| ==> c !in parts[i]
    decreases |s|
  {
    match IndexOfChar(s, c)
    case None => [s]
    case Some(i) => [s[..i]] + SplitOn(s[i + 1..], c)
  }

  /** Splitting loses nothing: joining the parts with the separator restores the input. */
  lemma {:induction false} JoinSplitOn(s: string, c: char)
    ensures Join(SplitOn(s, c), [c]) == s
    decreases |s|
  {
    match IndexOfChar(s, c)
    case None =>
    case Some(i) =>
      JoinSplitOn(s[i + 1..], c);
      var tail := SplitOn(s[i + 1..], c);
      assert SplitOn(s, c) == [s[..i]] + tail;
      assert ([s[..i]] + tail)[1..] == tail;
      assert s == s[..i] + [c] + s[i + 1..];
  }

  /** Text before the first separator is split off as the first part. */
  lemma SplitOnSeparated(w: string, c: char, rest: string)
    requires c !in w
    ensures SplitOn(w + [c] + rest, c) == [w] + SplitOn(rest, c)
  {
    var s := w + [c] + rest;
    assert s[..|w|] == w;
    IndexOfCharAt(s, c, |w|);
    assert s[|w| + 1..] == rest;
  }

  /** Splitting words that do not hold the separator, joined by it, gives the words back. */
  lemma {:induction false} SplitOnJoin(ws: seq<string>, c: char)
    requires |ws| >= 1 && forall i :: 0 <= i < |ws| ==> c !in ws[i]
    ensures SplitOn(Join(ws, [c]), c) == ws
  {
    if |ws| > 1 {
      var rest := Join(ws[1..], [c]);
      assert Join(ws, [c]) == ws[0] + [c] + rest;
      SplitOnSeparated(ws[0], c, rest);
      SplitOnJoin(ws[1..], c);
      assert ws == [ws[0]] + ws[1..];
    }
  }

  // ---------------------------------------------------------------------------
  // Decimal integers
  // ---------------------------------------------------------------------------

  predicate IsDigit(c: char) {
    '0' <= c <= '9'
  }

  predicate AllDigits(s: string) {
    forall i :: 0 <= i < |s| ==> IsDigit(s[i])
  }

  function DigitsValue(s: string): nat
    requires AllDigits(s)
  {
    if s == [] then 0 else DigitsValue(s[..|s| - 1]) * 10 + (s[|s| - 1] as int - '0' as int)
  }

  const MinInt: int := -0x8000_0000_0000_0000
  const MaxInt: int := 0x7FFF_FFFF_FFFF_FFFF

  /**
   * `strconv.Atoi` on a 64-bit platform: an optional sign, then at least one
   * decimal digit, with the value inside the range of `int`.
   */
  function Atoi(s: string): (r: Option<int>)
    ensures r.Some? ==> MinInt <= r.value <= MaxInt
    ensures r.Some? ==> s != [] && (IsDigit(s[0]) || s[0] == '+' || s[0] == '-')
  {
    var signed := s != [] && (s[0] == '+' || s[0] == '-');
    var body := if signed then s[1..] else s;
    if body == [] || !AllDigits(body) then None
    else
      var v: int := if s[0] == '-' then 0 - DigitsValue(body) as int else DigitsValue(body);
      if MinInt <= v <= MaxInt then Some(v) else None
  }

  function DigitChar(d: nat): char
    requires d < 10
  {
    ('0' as int + d) as char
  }

  function NatToString(n: nat): (s: string)
    ensures s != [] && AllDigits(s)
  {
    if n < 10 then [DigitChar(n)] else NatToString(n / 10) + [DigitChar(n % 10)]
  }

  /** `strconv.Itoa`, and `fmt.Sprintf("%d", n)`. */
  function IntToString(n: int): string {
    if n < 0 then "-" + NatToString(-n) else NatToString(n)
  }

  lemma {:induction false} NatToStringValue(n: nat)
    ensures DigitsValue(NatToString(n)) == n
  {
    if n >= 10 {
      NatToStringValue(n / 10);
      var s := NatToString(n);
      assert s[..|s| - 1] == NatToString(n / 10);
    }
  }

  /** Parsing what `IntToString` prints gives the number back. */
  lemma AtoiIntToString(n: int)
    requires MinInt <= n <= MaxInt
    ensures Atoi(IntToString(n)) == Some(n)
  {
    if n < 0 {
      var d := NatToString(-n);
      NatToStringValue(-n);
      var s := "-" + d;
      assert s[0] == '-' && s[1..] == d;
      assert IntToString(n) == s;
    } else {
      var d := NatToString(n);
      NatToStringValue(n);
      assert IsDigit(d[0]);
      assert IntToString(n) == d;
    }
  }

  // ---------------------------------------------------------------------------
  // Byte length
  // ---------------------------------------------------------------------------

  /** The number of bytes of `c` in UTF-8. */
  function RuneLen(c: char): nat {
    if c as int < 0x80 then 1
    else if c as int < 0x800 then 2
    else if c as int < 0x1_0000 then 3
    else 4
  }

  /** Go's `len` of a string: its length in UTF-8 bytes. */
  function Utf8Len(s: string): (n: nat)
    ensures |s| <= n <= 4 * |s|
  {
    if s == [] then 0 else RuneLen(s[0]) + Utf8Len(s[1..])
  }

  // ---------------------------------------------------------------------------
  // Quoting
  // ---------------------------------------------------------------------------

  /** Backslash-escape '"' and '\\'. */
  function Escape(s: string): string {
    if s == [] then []
    else (if s[0] == '"' || s[0] == '\\' then ['\\', s[0]] else [s[0]]) + Escape(s[1..])
  }

  /** The `%q` verb for printable text: the text in double quotes, with '"' and '\\' escaped. */
  function Quote(s: string): string {
    "\"" + Escape(s) + "\""
  }
}
