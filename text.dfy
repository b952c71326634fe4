/** String helpers with Python's semantics: str() of an int, str.lstrip(chars),
    str.rstrip(chars), str.startswith, and the "join with trailing separator, then
    rstrip" idiom the .geo writer uses for id lists. */
module Text {

  predicate IsDigits(s: string) {
    forall i :: 0 <= i < |s| ==> '0' <= s[i] <= '9'
  }

  function DigitChar(d: nat): (c: char)
    requires d < 10
    ensures '0' <= c <= '9'
  {
    (('0' as int) + d) as char
  }

  /** Decimal text of a natural number, as Python's str() writes an int. */
  function NatToString(n: nat): (s: string)
    ensures |s| >= 1 && IsDigits(s)
    decreases n
  {
    if n < 10 then [DigitChar(n)] else NatToString(n / 10) + [DigitChar(n % 10)]
  }

  /** Value of a string of decimal digits (the reader of NatToString). */
  function DigitsValue(s: string): nat
    requires IsDigits(s)
    decreases |s|
  {
    if s == [] then 0 else DigitsValue(s[..|s| - 1]) * 10 + (s[|s| - 1] as int - '0' as int)
  }

  lemma {:induction false} NatToStringRoundTrip(n: nat)
    ensures DigitsValue(NatToString(n)) == n
    decreases n
  {
    if n >= 10 {
      NatToStringRoundTrip(n / 10);
      var s := NatToString(n);
      assert s[..|s| - 1] == NatToString(n / 10);
    }
  }

  lemma NatToStringInjective(m: nat, n: nat)
    ensures NatToString(m) == NatToString(n) <==> m == n
  {
    NatToStringRoundTrip(m);
    NatToStringRoundTrip(n);
  }

  /** The set of characters of a string, as Python reads the argument of lstrip/rstrip. */
  function CharsOf(s: string): set<char> {
    set i | 0 <= i < |s| :: s[i]
  }

  predicate StartsWith(s: string, prefix: string) {
    |prefix| <= |s| && s[..|prefix|] == prefix
  }

  lemma StartsWithAppend(a: string, b: string)
    ensures StartsWith(a + b, a)
  {
    assert (a + b)[..|a|] == a;
  }

  lemma StartsWithAppendTwo(a: string, b: string, c: string)
    ensures StartsWith(a + b + c, a)
  {
    assert (a + b + c)[..|a|] == a;
  }

  /** Python's s.lstrip(chars): drop the longest prefix made only of characters in chars. */
  function LStrip(s: string, chars: set<char>): (r: string)
    ensures |r| <= |s| && r == s[|s| - |r|..]
    ensures r != [] ==> r[0] !in chars
    ensures forall i :: 0 <= i < |s| - |r| ==> s[i] in chars
    decreases |s|
  {
    if s != [] && s[0] in chars then LStrip(s[1..], chars) else s
  }

  /** Python's s.rstrip(chars): drop the longest suffix made only of characters in chars. */
  function RStrip(s: string, chars: set<char>): (r: string)
    ensures |r| <= |s| && r == s[..|r|]
    ensures r != [] ==> r[|r| - 1] !in chars
    ensures forall i :: |r| <= i < |s| ==> s[i] in chars
    decreases |s|
  {
    if s != [] && s[|s| - 1] in chars then RStrip(s[..|s| - 1], chars) else s
  }

  /** The stripped text is determined: for a string t + x whose t consists of characters
      of chars and whose x does not start with one, lstrip returns x. */
  lemma {:induction false} LStripExact(t: string, x: string, chars: set<char>)
    requires forall i :: 0 <= i < |t| ==> t[i] in chars
    requires x != [] ==> x[0] !in chars
    ensures LStrip(t + x, chars) == x
    decreases |t|
  {
    if t == [] {
      assert t + x == x;
    } else {
      assert (t + x)[0] == t[0];
      assert (t + x)[1..] == t[1..] + x;
      LStripExact(t[1..], x, chars);
    }
  }

  /** The mirror image for rstrip: (x + t).rstrip(chars) == x. */
  lemma {:induction false} RStripExact(x: string, t: string, chars: set<char>)
    requires forall i :: 0 <= i < |t| ==> t[i] in chars
    requires x != [] ==> x[|x| - 1] !in chars
    ensures RStrip(x + t, chars) == x
    decreases |t|
  {
    if t == [] {
      assert x + t == x;
    } else {
      var s := x + t;
      assert s[|s| - 1] == t[|t| - 1];
      assert s[..|s| - 1] == x + t[..|t| - 1];
      RStripExact(x, t[..|t| - 1], chars);
    }
  }

  /** The separator characters stripped by rstrip(', '). */
  const SepChars: set<char> := {',', ' '}

  /** ''.join(x + ', ' for x in xs): every item followed by ", ". */
  function Terminated(xs: seq<string>): string
    decreases |xs|
  {
    if xs == [] then "" else Terminated(xs[..|xs| - 1]) + xs[|xs| - 1] + ", "
  }

  /** (''.join(x + ', ' for x in xs)).rstrip(', '), the id-list idiom of the .geo writer. */
  function JoinIds(xs: seq<string>): string {
    RStrip(Terminated(xs), SepChars)
  }

  /** Reference definition: the items separated by ", " (what ", ".join(xs) gives). */
  function Join(xs: seq<string>): string
    decreases |xs|
  {
    if xs == [] then "" else if |xs| == 1 then xs[0] else Join(xs[..|xs| - 1]) + ", " + xs[|xs| - 1]
  }

  lemma {:induction false} TerminatedIsJoinPlusSep(xs: seq<string>)
    requires xs != []
    ensures Terminated(xs) == Join(xs) + ", "
    decreases |xs|
  {
    if |xs| > 1 {
      TerminatedIsJoinPlusSep(xs[..|xs| - 1]);
    } else {
      assert xs[..0] == [];
    }
  }

  lemma {:induction false} JoinEndsWithLast(xs: seq<string>)
    requires xs != [] && xs[|xs| - 1] != []
    ensures Join(xs) != [] && Join(xs)[|Join(xs)| - 1] == xs[|xs| - 1][|xs[|xs| - 1]| - 1]
  {
  }

  /** An item is a well-formed id when it is non-empty and does not end in a separator
      character: then the rstrip removes exactly the trailing ", ". */
  predicate WellFormedLast(xs: seq<string>) {
    xs != [] ==> xs[|xs| - 1] != [] && xs[|xs| - 1][|xs[|xs| - 1]| - 1] !in SepChars
  }

  /** The join-then-rstrip idiom agrees with ", ".join whenever the last item is a
      well-formed id; in particular for any list of decimal numbers. */
  lemma JoinIdsIsJoin(xs: seq<string>)
    requires WellFormedLast(xs)
    ensures JoinIds(xs) == Join(xs)
  {
    if xs != [] {
      TerminatedIsJoinPlusSep(xs);
      JoinEndsWithLast(xs);
      RStripExact(Join(xs), ", ", SepChars);
    }
  }

  /** Decimal texts of naturals, in order. */
  function Numerals(ns: seq<nat>): (r: seq<string>)
    ensures |r| == |ns|
    ensures forall i :: 0 <= i < |ns| ==> r[i] == NatToString(ns[i])
  {
    seq(|ns|, i requires 0 <= i < |ns| => NatToString(ns[i]))
  }

  lemma NumeralsJoin(ns: seq<nat>)
    ensures JoinIds(Numerals(ns)) == Join(Numerals(ns))
  {
    var xs := Numerals(ns);
    if xs != [] {
      var last := xs[|xs| - 1];
      assert IsDigits(last);
      assert '0' <= last[|last| - 1] <= '9';
    }
    JoinIdsIsJoin(xs);
  }

  /** A host element name such as "Face12": a kind word followed by its decimal number. */
  function ElementName(word: string, k: nat): string {
    word + NatToString(k)
  }

  /** Stripping the kind word's characters from a well-formed element name leaves its number,
      provided the kind word holds no digit. */
  lemma LStripElementName(word: string, k: nat)
    requires forall i :: 0 <= i < |word| ==> !('0' <= word[i] <= '9')
    ensures LStrip(ElementName(word, k), CharsOf(word)) == NatToString(k)
  {
    var d := NatToString(k);
    assert forall i :: 0 <= i < |word| ==> word[i] != d[0];
    assert d[0] !in CharsOf(word);
    forall i | 0 <= i < |word| ensures word[i] in CharsOf(word) { }
    LStripExact(word, d, CharsOf(word));
  }
}
