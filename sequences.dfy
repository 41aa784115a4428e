/** String operations on nucleotide sequences that the primer design engine
    relies on: base complement, lower-casing, G+C counting, splitting into
    codons and joining them back, and rendering integers in decimal. */
module Sequences {

  /** The smaller of two bounds; Python clamps a slice bound past the end of
      a sequence to its length. */
  function Min(a: int, b: int): int
  {
    if a <= b then a else b
  }

  /** Watson-Crick complement of one base, keeping its case; any other
      character (IUPAC ambiguity codes included) is left unchanged. */
  function Complement(c: char): char
  {
    match c
    case 'A' => 'T'
    case 'T' => 'A'
    case 'C' => 'G'
    case 'G' => 'C'
    case 'a' => 't'
    case 't' => 'a'
    case 'c' => 'g'
    case 'g' => 'c'
    case _ => c
  }

  lemma ComplementInvolution(c: char)
    ensures Complement(Complement(c)) == c
  {
  }

  /** The reverse complement of a strand, read 5' to 3'. */
  function ReverseComplement(s: string): (r: string)
    ensures |r| == |s|
  {
    if s == [] then [] else [Complement(s[|s| - 1])] + ReverseComplement(s[..|s| - 1])
  }

  /** Position k of the reverse complement pairs with position |s|-1-k of the strand. */
  lemma {:induction false} ReverseComplementAt(s: string, k: nat)
    requires k < |s|
    ensures ReverseComplement(s)[k] == Complement(s[|s| - 1 - k])
  {
    if k > 0 {
      ReverseComplementAt(s[..|s| - 1], k - 1);
    }
  }

  /** Taking the reverse complement twice gives back the strand. */
  lemma ReverseComplementInvolution(s: string)
    ensures ReverseComplement(ReverseComplement(s)) == s
  {
    var rc := ReverseComplement(s);
    forall k | 0 <= k < |s|
      ensures ReverseComplement(rc)[k] == s[k]
    {
      ReverseComplementAt(rc, k);
      ReverseComplementAt(s, |s| - 1 - k);
      ComplementInvolution(s[k]);
    }
  }

  function LowerChar(c: char): char
  {
    if 'A' <= c <= 'Z' then (c as int + 32) as char else c
  }

  /** Lower-cases the ASCII letters of a string. */
  function Lower(s: string): (r: string)
    ensures |r| == |s|
    ensures forall k :: 0 <= k < |s| ==> r[k] == LowerChar(s[k])
  {
    seq(|s|, k requires 0 <= k < |s| => LowerChar(s[k]))
  }

  predicate IsGC(c: char)
  {
    c == 'G' || c == 'C' || c == 'g' || c == 'c'
  }

  /** The number of G and C bases in a string, regardless of case. */
  function GcCount(s: string): (n: nat)
    ensures n <= |s|
  {
    if s == [] then 0 else GcCount(s[..|s| - 1]) + (if IsGC(s[|s| - 1]) then 1 else 0)
  }

  /** Splits a string into consecutive three-character codons; the last
      chunk is shorter when the length is not a multiple of three. */
  function Codons(s: string): (cs: seq<string>)
    ensures |cs| == (|s| + 2) / 3
    decreases |s|
  {
    if s == [] then []
    else if |s| <= 3 then [s]
    else [s[..3]] + Codons(s[3..])
  }

  /** Joins a list of sequences end to end (''.join for strings). */
  function Concat<T>(xss: seq<seq<T>>): seq<T>
  {
    if xss == [] then [] else xss[0] + Concat(xss[1..])
  }

  lemma {:induction false} ConcatAppend<T>(a: seq<seq<T>>, b: seq<seq<T>>)
    ensures Concat(a + b) == Concat(a) + Concat(b)
  {
    if a != [] {
      assert (a + b)[1..] == a[1..] + b;
      ConcatAppend(a[1..], b);
    } else {
      assert a + b == b;
    }
  }

  /** The position at which piece n starts in the joined sequence: the total
      length of the pieces before it. */
  function Offset<T>(xss: seq<seq<T>>, n: nat): nat
    requires n <= |xss|
  {
    if n == 0 then 0 else |xss[0]| + Offset(xss[1..], n - 1)
  }

  lemma {:induction false} OffsetStep<T>(xss: seq<seq<T>>, n: nat)
    requires n < |xss|
    ensures Offset(xss, n + 1) == Offset(xss, n) + |xss[n]|
  {
    if n > 0 {
      OffsetStep(xss[1..], n - 1);
    }
  }

  /** The joined sequence is as long as all its pieces together. */
  lemma {:induction false} ConcatTotal<T>(xss: seq<seq<T>>)
    ensures |Concat(xss)| == Offset(xss, |xss|)
  {
    if xss != [] {
      ConcatTotal(xss[1..]);
    }
  }

  /** Element j of piece i sits at Offset(xss, i) + j of the joined sequence. */
  lemma {:induction false} ConcatAt<T>(xss: seq<seq<T>>, i: nat, j: nat)
    requires i < |xss| && j < |xss[i]|
    ensures Offset(xss, i) + j < |Concat(xss)|
    ensures Concat(xss)[Offset(xss, i) + j] == xss[i][j]
  {
    ConcatTotal(xss[1..]);
    if i > 0 {
      ConcatAt(xss[1..], i - 1, j);
    }
  }

  /** Every element of the joined sequence is element j of some piece i, at
      Offset(xss, i) + j. */
  lemma {:induction false} ConcatFrom<T>(xss: seq<seq<T>>, k: nat)
    requires k < |Concat(xss)|
    ensures exists i, j :: 0 <= i < |xss| && 0 <= j < |xss[i]| && k == Offset(xss, i) + j &&
                           Concat(xss)[k] == xss[i][j]
  {
    if k < |xss[0]| {
      assert Concat(xss)[k] == xss[0][k];
      assert Offset(xss, 0) + k == k;
    } else {
      ConcatFrom(xss[1..], k - |xss[0]|);
      var i, j :| 0 <= i < |xss| - 1 && 0 <= j < |xss[1..][i]| && k - |xss[0]| == Offset(xss[1..], i) + j &&
                  Concat(xss[1..])[k - |xss[0]|] == xss[1..][i][j];
      assert k == Offset(xss, i + 1) + j;
      assert Concat(xss)[k] == xss[i + 1][j];
    }
  }

  predicate AllCodonSized(xs: seq<string>)
  {
    forall k :: 0 <= k < |xs| ==> |xs[k]| == 3
  }

  /** Joining the codons of a string gives back the string, and every codon
      of a string whose length is a multiple of three has three bases. */
  lemma {:induction false} CodonsRoundTrip(s: string)
    ensures Concat(Codons(s)) == s
    ensures |s| % 3 == 0 ==> AllCodonSized(Codons(s)) && |Codons(s)| == |s| / 3
    decreases |s|
  {
    if |s| > 3 {
      CodonsRoundTrip(s[3..]);
      assert Codons(s)[1..] == Codons(s[3..]);
    }
  }

  /** When every piece is a codon, the joined string has three bases per
      piece and piece k occupies positions 3k to 3k+3. */
  lemma {:induction false} ConcatCodonAt(xs: seq<string>, k: nat)
    requires AllCodonSized(xs)
    requires k < |xs|
    ensures |Concat(xs)| == 3 * |xs|
    ensures Concat(xs)[3 * k..3 * k + 3] == xs[k]
  {
    ConcatLength(xs);
    if k == 0 {
      assert Concat(xs) == xs[0] + Concat(xs[1..]);
    } else {
      ConcatCodonAt(xs[1..], k - 1);
      assert Concat(xs) == xs[0] + Concat(xs[1..]);
      assert Concat(xs)[3 * k..3 * k + 3] == Concat(xs[1..])[3 * (k - 1)..3 * (k - 1) + 3];
    }
  }

  lemma {:induction false} ConcatLength(xs: seq<string>)
    requires AllCodonSized(xs)
    ensures |Concat(xs)| == 3 * |xs|
  {
    if xs != [] {
      ConcatLength(xs[1..]);
    }
  }

  function DigitChar(d: nat): char
    requires d < 10
  {
    "0123456789"[d]
  }

  /** Decimal rendering of a natural number, most significant digit first. */
  function NatToString(n: nat): (s: string)
    ensures |s| >= 1
    ensures forall k :: 0 <= k < |s| ==> '0' <= s[k] <= '9'
  {
    if n < 10 then [DigitChar(n)] else NatToString(n / 10) + [DigitChar(n % 10)]
  }

  /** Python's str() of an integer. */
  function IntToString(n: int): string
  {
    if n < 0 then "-" + NatToString(-n) else NatToString(n)
  }

  function DigitValue(c: char): nat
  {
    if '0' <= c <= '9' then c as nat - '0' as nat else 0
  }

  /** Reads a string of decimal digits back as a number. */
  function DecimalValue(s: string): nat
  {
    if s == [] then 0 else 10 * DecimalValue(s[..|s| - 1]) + DigitValue(s[|s| - 1])
  }

  lemma DigitValueOf(d: nat)
    requires d < 10
    ensures DigitValue(DigitChar(d)) == d
  {
  }

  /** The decimal rendering is read back as the number it renders. */
  lemma {:induction false} NatToStringRoundTrip(n: nat)
    ensures DecimalValue(NatToString(n)) == n
  {
    if n >= 10 {
      NatToStringRoundTrip(n / 10);
      var p := NatToString(n / 10);
      var s := p + [DigitChar(n % 10)];
      assert s[..|s| - 1] == p;
      DigitValueOf(n % 10);
      assert DecimalValue(s) == 10 * (n / 10) + n % 10;
    }
  }

  predicate AllDigits(s: string)
  {
    forall k :: 0 <= k < |s| ==> '0' <= s[k] <= '9'
  }

  /** str() of an integer reads back: a non-negative number is a non-empty
      run of digits with its value, a negative one is a minus sign followed
      by the digits of its magnitude. */
  lemma IntToStringReadsBack(n: int)
    ensures n >= 0 ==>
              |IntToString(n)| >= 1 && AllDigits(IntToString(n)) && DecimalValue(IntToString(n)) == n
    ensures n < 0 ==>
              |IntToString(n)| >= 2 && IntToString(n)[0] == '-' &&
              AllDigits(IntToString(n)[1..]) && DecimalValue(IntToString(n)[1..]) == -n
  {
    if n >= 0 {
      NatToStringRoundTrip(n);
    } else {
      NatToStringRoundTrip(-n);
      assert IntToString(n)[1..] == NatToString(-n);
    }
  }
}
