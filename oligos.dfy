/** The mutagenic sub-window enumerator (main_package/primer_design.py,
    sub_window): one randomized decision per wild-type codon, then one oligo
    record and two FASTA lines per degenerate codon of the chosen table. The
    codon tables and the random source are parameters. */
module Oligos {
  import opened Outcomes
  import opened Sequences

  // ---------------------------------------------------------------------
  // Collaborators

  /** The codon_table module, specialised to the configured genetic code:
      four IUPAC degeneracy tables keyed by wild-type codon, yeast's
      preferred synonymous recoding of a codon, the amino acids a degenerate
      codon encodes, and whether a codon has a stop-codon missense variant. */
  datatype CodonTables = CodonTables(
    missense: map<string, seq<string>>,
    synonymous: map<string, seq<string>>,
    noStop: map<string, seq<string>>,
    noStopSynonymous: map<string, seq<string>>,
    yeastSynonymous: map<string, string>,
    iupacToAa: string -> string,
    containsStopVariant: string -> bool)

  /** The four degeneracy tables are built over the same codons. */
  predicate TablesWellFormed(t: CodonTables)
  {
    t.synonymous.Keys == t.missense.Keys &&
    t.noStop.Keys == t.missense.Keys &&
    t.noStopSynonymous.Keys == t.missense.Keys
  }

  /** The table for a codon, chosen by whether synonymous variants are added
      and whether stop variants are removed (lines 140-151). */
  function SelectTable(t: CodonTables, addSynonymous: bool, removeStop: bool): map<string, seq<string>>
  {
    if addSynonymous && removeStop then t.noStopSynonymous
    else if addSynonymous then t.synonymous
    else if removeStop then t.noStop
    else t.missense
  }

  /** The shared seeded random stream. Each draw consumes one uniform variate
      and is true when it falls below the requested rate, as a weighted choice
      between True and False with weights [rate, 1 - rate] does. */
  class Sampler {
    const uniforms: nat -> real
    var cursor: nat

    constructor (uniforms: nat -> real)
      ensures this.uniforms == uniforms && cursor == 0
    {
      this.uniforms := uniforms;
      cursor := 0;
    }

    method Draw(rate: real) returns (b: bool)
      modifies this`cursor
      ensures b == (uniforms(old(cursor)) < rate)
      ensures cursor == old(cursor) + 1
    {
      b := uniforms(cursor) < rate;
      cursor := cursor + 1;
    }
  }

  // ---------------------------------------------------------------------
  // Per-codon decisions

  /** What was decided for one wild-type codon of the sub-window. */
  datatype CodonDecision = CodonDecision(
    wtCodon: string,
    addSynonymous: bool,
    containsStop: bool,
    removeStop: bool,
    iupacCodons: seq<string>)

  /** The number of codons in wt[..k] that have a stop variant. */
  function StopCount(containsStop: string -> bool, wt: seq<string>, k: nat): (n: nat)
    requires k <= |wt|
    ensures n <= k
  {
    if k == 0 then 0 else StopCount(containsStop, wt, k - 1) + (if containsStop(wt[k - 1]) then 1 else 0)
  }

  /** How many draws precede the synonymous draw of codon k: one per earlier
      codon and one more per earlier codon with a stop variant. */
  function DrawOffset(containsStop: string -> bool, wt: seq<string>, k: nat): nat
    requires k <= |wt|
  {
    k + StopCount(containsStop, wt, k)
  }

  /** Codon k's draws come right after codon k-1's: its synonymous draw, then
      a stop-removal draw only if it has a stop variant. Draws never overlap
      and leave no gaps. */
  lemma {:induction false} DrawOffsetsAdjacent(containsStop: string -> bool, wt: seq<string>, k: nat)
    requires k < |wt|
    ensures DrawOffset(containsStop, wt, k + 1) ==
            DrawOffset(containsStop, wt, k) + 1 + (if containsStop(wt[k]) then 1 else 0)
  {
  }

  /** Codons earlier in the window always draw earlier in the stream. */
  lemma {:induction false} DrawOffsetsIncrease(containsStop: string -> bool, wt: seq<string>, j: nat, k: nat)
    requires j < k <= |wt|
    ensures DrawOffset(containsStop, wt, j) + 1 + (if containsStop(wt[j]) then 1 else 0) <=
            DrawOffset(containsStop, wt, k)
    decreases k - j
  {
    DrawOffsetsAdjacent(containsStop, wt, j);
    if j + 1 < k {
      DrawOffsetsIncrease(containsStop, wt, j + 1, k);
    }
  }

  /** The decision for codon c when the stream's next variates are at
      positions n and n+1 (lines 124-151). */
  function Decide(t: CodonTables, uniforms: nat -> real, n: nat, c: string, synRate: real, stopRate: real)
    : CodonDecision
    requires c in t.missense && TablesWellFormed(t)
  {
    var addSynonymous := uniforms(n) < synRate;
    var removeStop := t.containsStopVariant(c) && uniforms(n + 1) < stopRate;
    CodonDecision(c, addSynonymous, t.containsStopVariant(c), removeStop,
                  SelectTable(t, addSynonymous, removeStop)[c])
  }

  predicate AllInTables(wt: seq<string>, t: CodonTables)
  {
    TablesWellFormed(t) && forall k :: 0 <= k < |wt| ==> wt[k] in t.missense
  }

  /** The decisions for the first k codons of wt when the stream stands at
      position first, codon j drawing at first + DrawOffset(.., j). */
  function Decisions(t: CodonTables, uniforms: nat -> real, first: nat, wt: seq<string>, k: nat,
                     synRate: real, stopRate: real): (ds: seq<CodonDecision>)
    requires k <= |wt| && AllInTables(wt, t)
    ensures |ds| == k
  {
    if k == 0 then []
    else Decisions(t, uniforms, first, wt, k - 1, synRate, stopRate) +
         [Decide(t, uniforms, first + DrawOffset(t.containsStopVariant, wt, k - 1), wt[k - 1], synRate, stopRate)]
  }

  /** The decision for codon j is that codon's, uses the synonymous draw at
      first + DrawOffset(.., j), uses the next draw for stop removal if and
      only if the codon has a stop variant (no stop removal otherwise), and
      takes its degenerate codons from the table the two choices select. */
  lemma {:induction false} DecisionAt(t: CodonTables, uniforms: nat -> real, first: nat, wt: seq<string>, k: nat,
                                      synRate: real, stopRate: real, j: nat)
    requires k <= |wt| && AllInTables(wt, t)
    requires j < k
    ensures var d := Decisions(t, uniforms, first, wt, k, synRate, stopRate)[j];
            var n := first + DrawOffset(t.containsStopVariant, wt, j);
            d.wtCodon == wt[j] &&
            d.addSynonymous == (uniforms(n) < synRate) &&
            d.containsStop == t.containsStopVariant(wt[j]) &&
            (d.removeStop <==> t.containsStopVariant(wt[j]) && uniforms(n + 1) < stopRate) &&
            d.iupacCodons == SelectTable(t, d.addSynonymous, d.removeStop)[wt[j]]
  {
    if j < k - 1 {
      DecisionAt(t, uniforms, first, wt, k - 1, synRate, stopRate, j);
    }
  }

  /** One iteration of the loop of lines 122-151: the synonymous draw, the
      stop-removal draw only when the codon has a stop variant, and the
      degenerate codons of the table those choices select. */
  method DecideCodon(rng: Sampler, wtCodon: string, t: CodonTables, synRate: real, stopRate: real)
    returns (d: CodonDecision)
    requires wtCodon in t.missense && TablesWellFormed(t)
    modifies rng`cursor
    ensures rng.cursor == old(rng.cursor) + 1 + (if t.containsStopVariant(wtCodon) then 1 else 0)
    ensures d == Decide(t, rng.uniforms, old(rng.cursor), wtCodon, synRate, stopRate)
  {
    var addSynonymous := rng.Draw(synRate);
    var containsStop := t.containsStopVariant(wtCodon);
    var removeStop := false;
    if containsStop {
      removeStop := rng.Draw(stopRate);
    }
    var table := SelectTable(t, addSynonymous, removeStop);
    d := CodonDecision(wtCodon, addSynonymous, containsStop, removeStop, table[wtCodon]);
  }

  /** The loop of lines 122-151: one decision per wild-type codon, in order,
      each drawing from the stream right after the previous one; the stream
      advances by one draw per codon plus one per codon with a stop variant. */
  method DrawDecisions(rng: Sampler, wt: seq<string>, t: CodonTables, synRate: real, stopRate: real)
    returns (ds: seq<CodonDecision>)
    requires AllInTables(wt, t)
    modifies rng`cursor
    ensures rng.cursor == old(rng.cursor) + |wt| + StopCount(t.containsStopVariant, wt, |wt|)
    ensures ds == Decisions(t, rng.uniforms, old(rng.cursor), wt, |wt|, synRate, stopRate)
  {
    ghost var first := rng.cursor;
    ds := [];
    var k := 0;
    while k < |wt|
      invariant 0 <= k <= |wt|
      invariant rng.cursor == first + DrawOffset(t.containsStopVariant, wt, k)
      invariant ds == Decisions(t, rng.uniforms, first, wt, k, synRate, stopRate)
    {
      var d := DecideCodon(rng, wt[k], t, synRate, stopRate);
      DrawOffsetsAdjacent(t.containsStopVariant, wt, k);
      assert ds + [d] == Decisions(t, rng.uniforms, first, wt, k + 1, synRate, stopRate);
      ds := ds + [d];
      k := k + 1;
    }
  }

  /** With a stop-removal rate of zero (and variates that are never
      negative), no codon has its stop variants removed, so every codon uses
      the missense table or the synonymous one. */
  lemma NoStopRemovalAtRateZero(t: CodonTables, uniforms: nat -> real, first: nat, wt: seq<string>,
                                synRate: real, j: nat)
    requires AllInTables(wt, t) && j < |wt|
    requires forall n: nat :: uniforms(n) >= 0.0
    ensures var d := Decisions(t, uniforms, first, wt, |wt|, synRate, 0.0)[j];
            !d.removeStop &&
            d.iupacCodons == (if d.addSynonymous then t.synonymous[wt[j]] else t.missense[wt[j]])
  {
    DecisionAt(t, uniforms, first, wt, |wt|, synRate, 0.0, j);
  }

  // ---------------------------------------------------------------------
  // Oligo records

  /** One row of the output table (lines 169-194). */
  datatype OligoRecord = OligoRecord(
    name: string,
    codonSub: string,
    wtCodon: string,
    position: int,
    iupacCodon: string,
    iupacAa: string,
    subWindow: string,
    primer: string,
    addSynonymous: bool,
    containsStop: bool,
    removeStop: bool)

  /** What the enumeration of one window needs besides the decisions. */
  datatype WindowContext = WindowContext(
    startIndex: int,
    geneStart: int,
    subWindowName: string,
    homologyArm: string,
    forwardPrimer: string,
    synonymousWindow: seq<string>,
    iupacToAa: string -> string)

  /** Python's int() of a float: truncation toward zero. */
  function TruncToInt(x: real): int
  {
    if x >= 0.0 then x.Floor else -((-x).Floor)
  }

  /** The amino-acid position of codon i of a window (line 155), computed with
      true division and truncation as the source does. When the window is in
      the gene's codon frame, or starts at or after the gene, it is the
      integer codon number, counted from one. */
  function AaPosition(startIndex: int, geneStart: int, i: nat): (p: int)
    ensures (startIndex - geneStart) % 3 == 0 || startIndex >= geneStart ==>
              p == (startIndex - geneStart) / 3 + 1 + i
  {
    var d := startIndex - geneStart;
    var x := d as real / 3.0 + 1.0 + i as real;
    assert (d / 3) as real <= d as real / 3.0;
    assert d as real / 3.0 < (d / 3) as real + 1.0;
    assert d % 3 == 0 ==> d as real / 3.0 == (d / 3) as real;
    TruncToInt(x)
  }

  /** The synonymous recoding of the window with codon slot i replaced (line 162). */
  function SubstitutedWindow(syn: seq<string>, i: nat, c: string): (w: string)
    requires i < |syn|
    ensures w == Concat(syn[..i]) + c + Concat(syn[i + 1..])
  {
    ConcatAppend(syn[..i] + [c], syn[i + 1..]);
    ConcatAppend(syn[..i], [c]);
    assert Concat([c]) == c + Concat([]);
    Concat(syn[..i] + [c] + syn[i + 1..])
  }

  /** The record for degenerate codon c of the decision for codon slot i
      (lines 155-194). */
  function MakeRecord(ctx: WindowContext, d: CodonDecision, i: nat, c: string): (r: OligoRecord)
    requires i < |ctx.synonymousWindow|
    ensures r.primer == ctx.homologyArm + r.subWindow + ctx.forwardPrimer
    ensures r.subWindow == Concat(ctx.synonymousWindow[..i]) + c + Concat(ctx.synonymousWindow[i + 1..])
    ensures r.name == ctx.subWindowName + "_" + d.wtCodon + IntToString(r.position) + c
    ensures r.position == AaPosition(ctx.startIndex, ctx.geneStart, i)
    ensures r.wtCodon == d.wtCodon && r.iupacCodon == c && r.iupacAa == ctx.iupacToAa(c)
    ensures r.addSynonymous == d.addSynonymous && r.containsStop == d.containsStop && r.removeStop == d.removeStop
  {
    var position := AaPosition(ctx.startIndex, ctx.geneStart, i);
    var subWindow := SubstitutedWindow(ctx.synonymousWindow, i, c);
    var codonSub := d.wtCodon + IntToString(position) + c;
    OligoRecord(ctx.subWindowName + "_" + codonSub, codonSub, d.wtCodon, position, c, ctx.iupacToAa(c),
                subWindow, ctx.homologyArm + subWindow + ctx.forwardPrimer,
                d.addSynonymous, d.containsStop, d.removeStop)
  }

  /** name reads as the window name, an underscore, the wild-type codon, the
      decimal digits of the position (after a minus sign when it is
      negative), then the degenerate codon c. */
  ghost predicate NameReadsAs(name: string, window: string, wt: string, position: int, c: string)
  {
    var n := |window|;
    var w := n + 1 + |wt|;
    var q := |name| - |c|;
    w < q <= |name| &&
    name[..n] == window && name[n] == '_' &&
    name[n + 1..w] == wt && name[q..] == c &&
    (position >= 0 ==> AllDigits(name[w..q]) && DecimalValue(name[w..q]) == position) &&
    (position < 0 ==> name[w] == '-' && AllDigits(name[w + 1..q]) && DecimalValue(name[w + 1..q]) == -position)
  }

  /** The record name of lines 164-165 reads back as its window name,
      wild-type codon, amino-acid position and degenerate codon. */
  lemma RecordNameReadsBack(ctx: WindowContext, d: CodonDecision, i: nat, c: string)
    requires i < |ctx.synonymousWindow|
    ensures var r := MakeRecord(ctx, d, i, c);
            NameReadsAs(r.name, ctx.subWindowName, d.wtCodon, r.position, c)
  {
    var r := MakeRecord(ctx, d, i, c);
    NameReadsBack(ctx.subWindowName, d.wtCodon, r.position, c);
  }

  /** The four parts of a name joined as window + "_" + wt + digits + c are
      the slices between their boundaries. */
  lemma NameParts(window: string, wt: string, digits: string, c: string)
    ensures var name := window + "_" + wt + digits + c;
            var n := |window|;
            var w := n + 1 + |wt|;
            var q := |name| - |c|;
            q == w + |digits| &&
            name[..n] == window && name[n] == '_' && name[n + 1..w] == wt &&
            name[w..q] == digits && name[q..] == c &&
            (|digits| >= 1 ==> name[w] == digits[0] && name[w + 1..q] == digits[1..])
  {
    var name := window + "_" + wt + digits + c;
    var n := |window|;
    var w := n + 1 + |wt|;
    assert name[..n] == window;
    assert name[n + 1..w] == wt;
    assert name[w..|name| - |c|] == digits;
    assert name[|name| - |c|..] == c;
  }

  lemma NameReadsBack(window: string, wt: string, position: int, c: string)
    ensures NameReadsAs(window + "_" + wt + IntToString(position) + c, window, wt, position, c)
  {
    IntToStringReadsBack(position);
    NameParts(window, wt, IntToString(position), c);
  }

  /** The records of codon slot i for the degenerate codons cs, in their order. */
  function SlotRecords(ctx: WindowContext, d: CodonDecision, i: nat, cs: seq<string>): (rs: seq<OligoRecord>)
    requires i < |ctx.synonymousWindow|
    ensures |rs| == |cs|
  {
    seq(|cs|, j requires 0 <= j < |cs| => MakeRecord(ctx, d, i, cs[j]))
  }

  /** The number of degenerate codons of the first n decisions. */
  function RecordOffset(ds: seq<CodonDecision>, n: nat): nat
    requires n <= |ds|
  {
    if n == 0 then 0 else RecordOffset(ds, n - 1) + |ds[n - 1].iupacCodons|
  }

  /** The record lists of the codon slots, slot i holding the records of
      decision i. */
  function Slots(ctx: WindowContext, ds: seq<CodonDecision>): (ss: seq<seq<OligoRecord>>)
    requires |ds| <= |ctx.synonymousWindow|
    ensures |ss| == |ds|
    ensures forall i :: 0 <= i < |ds| ==> ss[i] == SlotRecords(ctx, ds[i], i, ds[i].iupacCodons)
  {
    seq(|ds|, i requires 0 <= i < |ds| => SlotRecords(ctx, ds[i], i, ds[i].iupacCodons))
  }

  /** The records of all codon slots, slot by slot. */
  function AllRecords(ctx: WindowContext, ds: seq<CodonDecision>): seq<OligoRecord>
    requires |ds| <= |ctx.synonymousWindow|
  {
    Concat(Slots(ctx, ds))
  }

  /** Handling one more decision appends its slot's records. */
  lemma AllRecordsExtend(ctx: WindowContext, ds: seq<CodonDecision>, n: nat)
    requires n < |ds| <= |ctx.synonymousWindow|
    ensures AllRecords(ctx, ds[..n + 1]) ==
            AllRecords(ctx, ds[..n]) + SlotRecords(ctx, ds[n], n, ds[n].iupacCodons)
  {
    var slot := SlotRecords(ctx, ds[n], n, ds[n].iupacCodons);
    assert Slots(ctx, ds[..n + 1]) == Slots(ctx, ds[..n]) + [slot];
    ConcatAppend(Slots(ctx, ds[..n]), [slot]);
    assert Concat([slot]) == slot + Concat([]);
  }

  /** The slot offsets count the degenerate codons of the earlier decisions. */
  lemma {:induction false} SlotOffsets(ctx: WindowContext, ds: seq<CodonDecision>, n: nat)
    requires n <= |ds| <= |ctx.synonymousWindow|
    ensures Offset(Slots(ctx, ds), n) == RecordOffset(ds, n)
  {
    if n > 0 {
      SlotOffsets(ctx, ds, n - 1);
      OffsetStep(Slots(ctx, ds), n - 1);
    }
  }

  /** There is one record per degenerate codon of the selected tables. */
  lemma AllRecordsCount(ctx: WindowContext, ds: seq<CodonDecision>)
    requires |ds| <= |ctx.synonymousWindow|
    ensures |AllRecords(ctx, ds)| == RecordOffset(ds, |ds|)
  {
    ConcatTotal(Slots(ctx, ds));
    SlotOffsets(ctx, ds, |ds|);
  }

  /** The record for degenerate codon j of slot i sits at position
      RecordOffset(ds, i) + j: slots in ascending order, and within a slot the
      table's order. */
  lemma AllRecordsAt(ctx: WindowContext, ds: seq<CodonDecision>, i: nat, j: nat)
    requires |ds| <= |ctx.synonymousWindow|
    requires i < |ds| && j < |ds[i].iupacCodons|
    ensures RecordOffset(ds, i) + j < |AllRecords(ctx, ds)|
    ensures AllRecords(ctx, ds)[RecordOffset(ds, i) + j] == MakeRecord(ctx, ds[i], i, ds[i].iupacCodons[j])
  {
    ConcatAt(Slots(ctx, ds), i, j);
    SlotOffsets(ctx, ds, i);
  }

  /** Conversely, every record is the one for some degenerate codon j of
      some slot i, at position RecordOffset(ds, i) + j. */
  lemma AllRecordsFrom(ctx: WindowContext, ds: seq<CodonDecision>, k: nat)
    requires |ds| <= |ctx.synonymousWindow|
    requires k < |AllRecords(ctx, ds)|
    ensures exists i, j :: 0 <= i < |ds| && 0 <= j < |ds[i].iupacCodons| && k == RecordOffset(ds, i) + j &&
                           AllRecords(ctx, ds)[k] == MakeRecord(ctx, ds[i], i, ds[i].iupacCodons[j])
  {
    var ss := Slots(ctx, ds);
    ConcatFrom(ss, k);
    var i, j :| 0 <= i < |ss| && 0 <= j < |ss[i]| && k == Offset(ss, i) + j && Concat(ss)[k] == ss[i][j];
    SlotOffsets(ctx, ds, i);
    assert AllRecords(ctx, ds)[k] == MakeRecord(ctx, ds[i], i, ds[i].iupacCodons[j]);
  }

  lemma {:induction false} RecordOffsetMonotone(ds: seq<CodonDecision>, a: nat, b: nat)
    requires a <= b <= |ds|
    ensures RecordOffset(ds, a) <= RecordOffset(ds, b)
    decreases b - a
  {
    if a < b {
      RecordOffsetMonotone(ds, a, b - 1);
    }
  }

  /** A record for an earlier slot always comes before every record of a
      later slot. */
  lemma RecordOffsetsOrdered(ds: seq<CodonDecision>, i: nat, j: nat, i': nat, j': nat)
    requires i < i' <= |ds| && j < |ds[i].iupacCodons|
    ensures RecordOffset(ds, i) + j < RecordOffset(ds, i') + j'
  {
    RecordOffsetMonotone(ds, i + 1, i');
  }

  /** The two FASTA lines of each record, in record order (line 202). */
  function FastaLines(rs: seq<OligoRecord>): seq<string>
  {
    if rs == [] then []
    else FastaLines(rs[..|rs| - 1]) + [">" + rs[|rs| - 1].name + "\n", rs[|rs| - 1].primer + "\n"]
  }

  /** Each record contributes exactly two lines: its name as a FASTA header,
      then its full oligo. */
  lemma {:induction false} FastaLinesAt(rs: seq<OligoRecord>, k: nat)
    requires k < |rs|
    ensures |FastaLines(rs)| == 2 * |rs|
    ensures FastaLines(rs)[2 * k] == ">" + rs[k].name + "\n"
    ensures FastaLines(rs)[2 * k + 1] == rs[k].primer + "\n"
  {
    FastaLinesLength(rs);
    if k < |rs| - 1 {
      FastaLinesAt(rs[..|rs| - 1], k);
    }
  }

  lemma {:induction false} FastaLinesLength(rs: seq<OligoRecord>)
    ensures |FastaLines(rs)| == 2 * |rs|
  {
    if rs != [] {
      FastaLinesLength(rs[..|rs| - 1]);
    }
  }

  lemma SlotRecordsExtend(ctx: WindowContext, d: CodonDecision, i: nat, cs: seq<string>, j: nat)
    requires i < |ctx.synonymousWindow| && j < |cs|
    ensures SlotRecords(ctx, d, i, cs[..j + 1]) == SlotRecords(ctx, d, i, cs[..j]) + [MakeRecord(ctx, d, i, cs[j])]
  {
  }

  lemma FastaLinesExtend(rs: seq<OligoRecord>, r: OligoRecord)
    ensures FastaLines(rs + [r]) == FastaLines(rs) + [">" + r.name + "\n", r.primer + "\n"]
  {
    assert (rs + [r])[..|rs|] == rs;
  }

  /** The inner loop of lines 157-202: the degenerate codons of slot i, in
      their order, each append one record and its two FASTA lines. */
  method EmitSlot(ctx: WindowContext, d: CodonDecision, i: nat, records: seq<OligoRecord>, fasta: seq<string>)
    returns (records': seq<OligoRecord>, fasta': seq<string>)
    requires i < |ctx.synonymousWindow|
    requires fasta == FastaLines(records)
    ensures records' == records + SlotRecords(ctx, d, i, d.iupacCodons)
    ensures fasta' == FastaLines(records')
  {
    records', fasta' := records, fasta;
    var j := 0;
    while j < |d.iupacCodons|
      invariant 0 <= j <= |d.iupacCodons|
      invariant records' == records + SlotRecords(ctx, d, i, d.iupacCodons[..j])
      invariant fasta' == FastaLines(records')
    {
      var record := MakeRecord(ctx, d, i, d.iupacCodons[j]);
      SlotRecordsExtend(ctx, d, i, d.iupacCodons, j);
      FastaLinesExtend(records', record);
      records' := records' + [record];
      fasta' := fasta' + [">" + record.name + "\n", record.primer + "\n"];
      j := j + 1;
    }
    assert d.iupacCodons[..j] == d.iupacCodons;
  }

  /** The enumeration loop of lines 154-202: every degenerate codon of every
      decision, slot by slot, becomes one record and two FASTA lines. */
  method EnumerateOligos(ctx: WindowContext, ds: seq<CodonDecision>)
    returns (records: seq<OligoRecord>, fasta: seq<string>)
    requires |ds| <= |ctx.synonymousWindow|
    ensures records == AllRecords(ctx, ds)
    ensures fasta == FastaLines(records)
  {
    records, fasta := [], [];
    var i := 0;
    while i < |ds|
      invariant 0 <= i <= |ds|
      invariant records == AllRecords(ctx, ds[..i])
      invariant fasta == FastaLines(records)
    {
      records, fasta := EmitSlot(ctx, ds[i], i, records, fasta);
      AllRecordsExtend(ctx, ds, i);
      i := i + 1;
    }
    assert ds[..i] == ds;
  }

  /** With codon-sized recodings and codon-sized degenerate codons, every
      record carries a sub-window of three bases per codon slot, and its full
      oligo is the homology arm, that sub-window and the forward primer. */
  lemma RecordsCodonSized(ctx: WindowContext, ds: seq<CodonDecision>, k: nat)
    requires |ds| <= |ctx.synonymousWindow| && AllCodonSized(ctx.synonymousWindow)
    requires forall i :: 0 <= i < |ds| ==> AllCodonSized(ds[i].iupacCodons)
    requires k < |AllRecords(ctx, ds)|
    ensures |AllRecords(ctx, ds)[k].subWindow| == 3 * |ctx.synonymousWindow|
    ensures AllRecords(ctx, ds)[k].primer ==
            ctx.homologyArm + AllRecords(ctx, ds)[k].subWindow + ctx.forwardPrimer
  {
    AllRecordsFrom(ctx, ds, k);
    var i, j :| 0 <= i < |ds| && 0 <= j < |ds[i].iupacCodons| && k == RecordOffset(ds, i) + j &&
                AllRecords(ctx, ds)[k] == MakeRecord(ctx, ds[i], i, ds[i].iupacCodons[j]);
    SubstitutedWindowSlots(ctx.synonymousWindow, i, ds[i].iupacCodons[j], i);
  }

  /** With codon-sized recodings and a codon-sized substitute, the substituted
      sub-window keeps the window's length, holds the substitute at slot i and
      the synonymous recoding at every other slot. */
  lemma SubstitutedWindowSlots(syn: seq<string>, i: nat, c: string, k: nat)
    requires AllCodonSized(syn) && |c| == 3
    requires i < |syn| && k < |syn|
    ensures |SubstitutedWindow(syn, i, c)| == 3 * |syn|
    ensures SubstitutedWindow(syn, i, c)[3 * k..3 * k + 3] == if k == i then c else syn[k]
  {
    var xs := syn[..i] + [c] + syn[i + 1..];
    assert AllCodonSized(xs);
    ConcatCodonAt(xs, k);
    assert xs[k] == if k == i then c else syn[k];
  }
}
