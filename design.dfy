/** The four entry points of main_package/primer_design.py as they act on the
    run's shared state: seq_data (the sequences, the random stream and the
    output table and FASTA lines) and the per-window data_dict, both of which
    the source updates in place. */
module Design {
  import opened Outcomes
  import opened Sequences
  import opened Primers
  import opened Oligos

  /** The command-line options the design functions read. */
  datatype Args = Args(
    homoLen: nat,
    oligoLen: nat,
    meltTemp: real,
    revMeltTemp: real,
    synSnpRate: real,
    removeStopRate: real)

  /** seq_data: the sequence context of the run and its accumulated output. */
  class SeqData {
    const vectorSeq: string
    const wtSeq: string
    const geneStart: nat
    const rng: Sampler
    var df: seq<OligoRecord>
    var fastaFile: seq<string>

    constructor (vectorSeq: string, wtSeq: string, geneStart: nat, rng: Sampler)
      ensures this.vectorSeq == vectorSeq && this.wtSeq == wtSeq && this.geneStart == geneStart
      ensures this.rng == rng && df == [] && fastaFile == []
    {
      this.vectorSeq := vectorSeq;
      this.wtSeq := wtSeq;
      this.geneStart := geneStart;
      this.rng := rng;
      df := [];
      fastaFile := [];
    }
  }

  /** data_dict: the window the caller supplies and what the design
      functions write into it. */
  class DataDict {
    const startIndex: nat
    const windowEnd: nat
    const subWindowName: string
    var homologyArm: string
    var reversePrimer: string
    var reversePrimerName: string
    var primerStart: nat
    var forwardPrimer: string
    var lastRecord: Option<OligoRecord>

    constructor (startIndex: nat, windowEnd: nat, subWindowName: string)
      ensures this.startIndex == startIndex && this.windowEnd == windowEnd
      ensures this.subWindowName == subWindowName
      ensures homologyArm == reversePrimer == reversePrimerName == forwardPrimer == []
      ensures primerStart == 0 && lastRecord == None
    {
      this.startIndex := startIndex;
      this.windowEnd := windowEnd;
      this.subWindowName := subWindowName;
      homologyArm, reversePrimer, reversePrimerName, forwardPrimer := [], [], [], [];
      primerStart := 0;
      lastRecord := None;
    }
  }

  /** homology_arm (lines 10-17). */
  method HomologyArm(sd: SeqData, dd: DataDict, args: Args)
    requires args.homoLen <= dd.startIndex
    modifies dd`homologyArm
    ensures dd.homologyArm == HomologyArmOf(sd.vectorSeq, dd.startIndex, args.homoLen)
  {
    dd.homologyArm := HomologyArmOf(sd.vectorSeq, dd.startIndex, args.homoLen);
  }

  /** reverse_primer (lines 19-33): on success the primer and its name are
      stored; when the threshold is never reached nothing is. */
  method ReversePrimer(sd: SeqData, dd: DataDict, args: Args, tm: MeltingTemp) returns (e: Option<Error>)
    modifies dd`reversePrimer, dd`reversePrimerName
    ensures e.None? ==>
              var rs := ReverseTemplate(sd.vectorSeq, dd.startIndex);
              Min(SeedLength, |rs|) <= |dd.reversePrimer| <= |rs| &&
              dd.reversePrimer == rs[..|dd.reversePrimer|] &&
              tm(dd.reversePrimer) >= args.revMeltTemp &&
              (forall k :: Min(SeedLength, |rs|) <= k < |dd.reversePrimer| ==> tm(rs[..k]) < args.revMeltTemp) &&
              dd.reversePrimerName == ReversePrimerName(dd.subWindowName)
    ensures e.Some? ==>
              e == Some(MeltingTempNeverReached) &&
              dd.reversePrimer == old(dd.reversePrimer) && dd.reversePrimerName == old(dd.reversePrimerName)
  {
    var r := DesignReversePrimer(sd.vectorSeq, dd.startIndex, args.revMeltTemp, tm);
    if r.Err? {
      return Some(r.error);
    }
    dd.reversePrimer := r.value;
    dd.reversePrimerName := ReversePrimerName(dd.subWindowName);
    return None;
  }

  /** forward_primer (lines 35-87): on success the primer start and the
      primer of the design are stored; on failure nothing is, and the error
      has one of the causes ForwardFailed lists. */
  method ForwardPrimer(sd: SeqData, dd: DataDict, args: Args, tm: MeltingTemp)
    returns (e: Option<Error>, ghost design: ForwardDesign)
    modifies dd`primerStart, dd`forwardPrimer
    ensures e.None? ==>
              ForwardDesigned(sd.vectorSeq, dd.startIndex, dd.windowEnd, args.oligoLen, args.homoLen,
                              args.meltTemp, tm, design) &&
              dd.primerStart == design.primerStart && dd.forwardPrimer == design.primer
    ensures e.Some? ==>
              ForwardFailed(sd.vectorSeq, dd.startIndex, dd.windowEnd, args.oligoLen, args.homoLen,
                            args.meltTemp, tm, e.value) &&
              dd.primerStart == old(dd.primerStart) && dd.forwardPrimer == old(dd.forwardPrimer)
  {
    var r := DesignForwardPrimer(sd.vectorSeq, dd.startIndex, dd.windowEnd, args.oligoLen, args.homoLen,
                                 args.meltTemp, tm);
    if r.Err? {
      design := ForwardDesign(0, 0, 0, [], Framed);
      return Some(r.error), design;
    }
    design := r.value;
    dd.primerStart := r.value.primerStart;
    dd.forwardPrimer := r.value.primer;
    return None, design;
  }

  /** The yeast-preferred synonymous recoding of each vector codon, lower-cased (line 114). */
  function SynonymousWindow(yeast: map<string, string>, vectList: seq<string>): (syn: seq<string>)
    requires AllRecoded(vectList, yeast)
    ensures |syn| == |vectList|
    ensures forall k :: 0 <= k < |vectList| ==> syn[k] == Lower(yeast[vectList[k]])
  {
    seq(|vectList|, k requires 0 <= k < |vectList| => Lower(yeast[vectList[k]]))
  }

  /** The codons of the sub-window [startIndex, primerStart) of a sequence (lines 103-111). */
  function SubWindowCodons(s: string, startIndex: nat, primerStart: nat): seq<string>
    requires startIndex <= primerStart <= |s|
  {
    Codons(s[startIndex..primerStart])
  }

  /** With three-base yeast recodings and an in-frame sub-window, the joined
      synonymous window is exactly as long as the sub-window, and its codon k
      is the lower-cased recoding of the vector's codon at
      startIndex + 3k (lines 111 and 114). */
  lemma SynonymousWindowJoined(v: string, startIndex: nat, primerStart: nat, yeast: map<string, string>, k: nat)
    requires startIndex <= primerStart <= |v| && (primerStart - startIndex) % 3 == 0
    requires AllRecoded(SubWindowCodons(v, startIndex, primerStart), yeast)
    requires forall c :: c in yeast ==> |yeast[c]| == 3
    requires 3 * k < primerStart - startIndex
    ensures var syn := SynonymousWindow(yeast, SubWindowCodons(v, startIndex, primerStart));
            var codon := v[startIndex + 3 * k..startIndex + 3 * k + 3];
            |Concat(syn)| == primerStart - startIndex &&
            codon in yeast &&
            Concat(syn)[3 * k..3 * k + 3] == Lower(yeast[codon])
  {
    var s := v[startIndex..primerStart];
    var cs := SubWindowCodons(v, startIndex, primerStart);
    var syn := SynonymousWindow(yeast, cs);
    CodonsRoundTrip(s);
    ConcatCodonAt(cs, k);
    assert 3 * k + 3 <= |s|;
    assert cs[k] == s[3 * k..3 * k + 3];
    var inSub, inVector := s[3 * k..3 * k + 3], v[startIndex + 3 * k..startIndex + 3 * k + 3];
    forall m | 0 <= m < 3
      ensures inSub[m] == inVector[m]
    {
      assert inSub[m] == s[3 * k + m] == v[startIndex + 3 * k + m];
    }
    assert inSub == inVector;
    assert AllCodonSized(syn);
    ConcatCodonAt(syn, k);
  }

  predicate AllRecoded(vectList: seq<string>, yeast: map<string, string>)
  {
    forall k :: 0 <= k < |vectList| ==> vectList[k] in yeast
  }

  /** With codon-sized table entries and an in-frame sub-window, every record
      of the window carries a sub-window exactly primerStart - startIndex bases
      long, so its full oligo is the homology arm, that many bases, and the
      forward primer. */
  lemma RecordShape(v: string, startIndex: nat, primerStart: nat, geneStart: int, name: string,
                    arm: string, fwd: string, t: CodonTables, ds: seq<CodonDecision>, k: nat)
    requires startIndex <= primerStart <= |v| && (primerStart - startIndex) % 3 == 0
    requires AllRecoded(SubWindowCodons(v, startIndex, primerStart), t.yeastSynonymous)
    requires forall c :: c in t.yeastSynonymous ==> |t.yeastSynonymous[c]| == 3
    requires |ds| == |SubWindowCodons(v, startIndex, primerStart)|
    requires forall i :: 0 <= i < |ds| ==> AllCodonSized(ds[i].iupacCodons)
    ensures var syn := SynonymousWindow(t.yeastSynonymous, SubWindowCodons(v, startIndex, primerStart));
            var rs := AllRecords(WindowContext(startIndex, geneStart, name, arm, fwd, syn, t.iupacToAa), ds);
            k < |rs| ==>
              |rs[k].subWindow| == primerStart - startIndex &&
              rs[k].primer == arm + rs[k].subWindow + fwd &&
              |rs[k].primer| == |arm| + (primerStart - startIndex) + |fwd|
  {
    var vectList := SubWindowCodons(v, startIndex, primerStart);
    var syn := SynonymousWindow(t.yeastSynonymous, vectList);
    var ctx := WindowContext(startIndex, geneStart, name, arm, fwd, syn, t.iupacToAa);
    if k < |AllRecords(ctx, ds)| {
      CodonsRoundTrip(v[startIndex..primerStart]);
      assert AllCodonSized(syn);
      RecordsCodonSized(ctx, ds, k);
    }
  }

  /** The values of a window that its records are built from: the window's
      dictionary entries and the synonymous recoding of its vector codons. */
  function Context(v: string, startIndex: nat, primerStart: nat, geneStart: int, name: string,
                   arm: string, fwd: string, t: CodonTables): (ctx: WindowContext)
    requires startIndex <= primerStart <= |v|
    requires AllRecoded(SubWindowCodons(v, startIndex, primerStart), t.yeastSynonymous)
    ensures |ctx.synonymousWindow| == |SubWindowCodons(v, startIndex, primerStart)|
  {
    WindowContext(startIndex, geneStart, name, arm, fwd,
                  SynonymousWindow(t.yeastSynonymous, SubWindowCodons(v, startIndex, primerStart)), t.iupacToAa)
  }

  /** The decision loop of sub_window (lines 110 and 122-151): one decision
      per wild-type codon of the sub-window, drawn from the shared stream. */
  method DecideWindow(sd: SeqData, dd: DataDict, args: Args, t: CodonTables)
    returns (ds: seq<CodonDecision>)
    requires dd.startIndex <= dd.primerStart <= |sd.wtSeq|
    requires AllInTables(SubWindowCodons(sd.wtSeq, dd.startIndex, dd.primerStart), t)
    modifies sd.rng`cursor
    ensures var wt := SubWindowCodons(sd.wtSeq, dd.startIndex, dd.primerStart);
            sd.rng.cursor == old(sd.rng.cursor) + |wt| + StopCount(t.containsStopVariant, wt, |wt|) &&
            ds == Decisions(t, sd.rng.uniforms, old(sd.rng.cursor), wt, |wt|,
                            args.synSnpRate, args.removeStopRate)
  {
    var wtList := SubWindowCodons(sd.wtSeq, dd.startIndex, dd.primerStart);
    ds := DrawDecisions(sd.rng, wtList, t, args.synSnpRate, args.removeStopRate);
  }

  /** The output loop of sub_window (lines 111-114 and 154-202): the records
      of the decisions and their FASTA lines are appended to the run's
      output, and the window's dictionary keeps the last record. */
  method AppendRecords(sd: SeqData, dd: DataDict, t: CodonTables, ds: seq<CodonDecision>)
    requires dd.startIndex <= dd.primerStart <= |sd.vectorSeq|
    requires AllRecoded(SubWindowCodons(sd.vectorSeq, dd.startIndex, dd.primerStart), t.yeastSynonymous)
    requires |ds| == |SubWindowCodons(sd.vectorSeq, dd.startIndex, dd.primerStart)|
    modifies sd`df, sd`fastaFile, dd`lastRecord
    ensures var added := AllRecords(Context(sd.vectorSeq, dd.startIndex, dd.primerStart, sd.geneStart,
                                            dd.subWindowName, dd.homologyArm, dd.forwardPrimer, t),
                                    ds);
            sd.df == old(sd.df) + added &&
            sd.fastaFile == old(sd.fastaFile) + FastaLines(added) &&
            dd.lastRecord == if added == [] then old(dd.lastRecord) else Some(added[|added| - 1])
  {
    var ctx := Context(sd.vectorSeq, dd.startIndex, dd.primerStart, sd.geneStart,
                       dd.subWindowName, dd.homologyArm, dd.forwardPrimer, t);
    var records, fasta := EnumerateOligos(ctx, ds);
    sd.df := sd.df + records;
    sd.fastaFile := sd.fastaFile + fasta;
    if records != [] {
      dd.lastRecord := Some(records[|records| - 1]);
    }
  }

  /** sub_window (lines 89-204): the decisions consume the shared stream, the
      records and their FASTA lines are appended to the run's output, and the
      window's dictionary is left holding the last record. */
  method SubWindow(sd: SeqData, dd: DataDict, args: Args, t: CodonTables)
    returns (ghost decisions: seq<CodonDecision>)
    requires dd.startIndex <= dd.primerStart <= |sd.wtSeq|
    requires dd.primerStart <= |sd.vectorSeq|
    requires AllInTables(SubWindowCodons(sd.wtSeq, dd.startIndex, dd.primerStart), t)
    requires AllRecoded(SubWindowCodons(sd.vectorSeq, dd.startIndex, dd.primerStart), t.yeastSynonymous)
    modifies sd`df, sd`fastaFile, sd.rng`cursor, dd`lastRecord
    ensures var wt := SubWindowCodons(sd.wtSeq, dd.startIndex, dd.primerStart);
            sd.rng.cursor == old(sd.rng.cursor) + |wt| + StopCount(t.containsStopVariant, wt, |wt|) &&
            decisions == Decisions(t, sd.rng.uniforms, old(sd.rng.cursor), wt, |wt|,
                                   args.synSnpRate, args.removeStopRate)
    ensures var added := AllRecords(Context(sd.vectorSeq, dd.startIndex, dd.primerStart, sd.geneStart,
                                            dd.subWindowName, dd.homologyArm, dd.forwardPrimer, t),
                                    decisions);
            sd.df == old(sd.df) + added &&
            sd.fastaFile == old(sd.fastaFile) + FastaLines(added) &&
            dd.lastRecord == if added == [] then old(dd.lastRecord) else Some(added[|added| - 1])
  {
    var ds := DecideWindow(sd, dd, args, t);
    decisions := ds;
    AppendRecords(sd, dd, t, ds);
  }
}
