/** The homology arm, reverse primer and forward primer of one mutagenesis
    window (main_package/primer_design.py, homology_arm, reverse_primer and
    forward_primer). The melting temperature oracle is a parameter. */
module Primers {
  import opened Outcomes
  import opened Sequences

  /** Nearest-neighbour melting temperature of a primer, supplied by the caller. */
  type MeltingTemp = string -> real

  /** Every primer starts from this many bases before it is extended. */
  const SeedLength: nat := 15

  /** A sub-window shorter than this many bases (four codons) triggers the
      short-window guard of the forward primer. */
  const MinWindow: nat := 12

  /** G+C count the short-window guard's primer must exceed. */
  const MinGuardGc: nat := 8

  // ---------------------------------------------------------------------
  // Homology arm

  /** The homoLen bases of the vector immediately upstream of startIndex;
      both slice bounds clamp to the vector's end, so a start past the vector
      gives a shorter (possibly empty) arm. */
  function HomologyArmOf(v: string, startIndex: nat, homoLen: nat): (arm: string)
    requires homoLen <= startIndex
    ensures |arm| == Min(startIndex, |v|) - Min(startIndex - homoLen, |v|) <= homoLen
    ensures startIndex <= |v| ==> |arm| == homoLen
    ensures v[..Min(startIndex, |v|)] == v[..Min(startIndex - homoLen, |v|)] + arm
  {
    v[Min(startIndex - homoLen, |v|)..Min(startIndex, |v|)]
  }

  // ---------------------------------------------------------------------
  // Reverse primer

  /** The template the reverse primer is read from: the reverse complement of
      everything upstream of startIndex (a slice end past the sequence clamps). */
  function ReverseTemplate(v: string, startIndex: nat): (rs: string)
    ensures |rs| == Min(startIndex, |v|)
  {
    ReverseComplement(v[..Min(startIndex, |v|)])
  }

  /** The shortest prefix of the reverse template, starting from the seed
      length (or the whole template when it is shorter), whose melting
      temperature reaches revMeltTemp. When no such prefix exists the source
      loop never ends; the model reports MeltingTempNeverReached. */
  method DesignReversePrimer(v: string, startIndex: nat, revMeltTemp: real, tm: MeltingTemp)
    returns (r: Result<string>)
    ensures var rs := ReverseTemplate(v, startIndex);
            r.Ok? ==>
              Min(SeedLength, |rs|) <= |r.value| <= |rs| &&
              r.value == rs[..|r.value|] &&
              tm(r.value) >= revMeltTemp &&
              forall k :: Min(SeedLength, |rs|) <= k < |r.value| ==> tm(rs[..k]) < revMeltTemp
    ensures var rs := ReverseTemplate(v, startIndex);
            r.Err? ==>
              r.error == MeltingTempNeverReached &&
              forall k :: Min(SeedLength, |rs|) <= k <= |rs| ==> tm(rs[..k]) < revMeltTemp
  {
    var rs := ReverseTemplate(v, startIndex);
    var primer := rs[..Min(SeedLength, |rs|)];
    while tm(primer) < revMeltTemp
      invariant Min(SeedLength, |rs|) <= |primer| <= |rs|
      invariant primer == rs[..|primer|]
      invariant forall k :: Min(SeedLength, |rs|) <= k < |primer| ==> tm(rs[..k]) < revMeltTemp
      decreases |rs| - |primer|
    {
      if |primer| == |rs| {
        return Err(MeltingTempNeverReached);
      }
      primer := rs[..|primer| + 1];
    }
    return Ok(primer);
  }

  /** The name under which the reverse primer of a window is reported. */
  function ReversePrimerName(subWindowName: string): (name: string)
    ensures |name| == |subWindowName| + 4
    ensures name[..4] == "rev_" && name[4..] == subWindowName
  {
    "rev_" + subWindowName
  }

  // ---------------------------------------------------------------------
  // Forward primer

  /** The primer v[start..end], grown leftward from the seed, has reached the
      threshold, and no start between it and the seed did. */
  ghost predicate ExtendedLeftMinimally(v: string, start: int, end: int, meltTemp: real, tm: MeltingTemp)
  {
    0 <= start <= end - SeedLength && end <= |v| &&
    tm(v[start..end]) >= meltTemp &&
    forall s :: start < s <= end - SeedLength ==> tm(v[s..end]) < meltTemp
  }

  /** The primer v[start..end], grown rightward from the seed, is accepted by
      the gate, and no shorter primer at that start was. */
  ghost predicate GrewRightMinimally(v: string, start: int, end: int, accept: string -> bool)
  {
    0 <= start && start + SeedLength <= end <= |v| &&
    accept(v[start..end]) &&
    forall e :: start + SeedLength <= e < end ==> !accept(v[start..e])
  }

  /** Moves primerEnd's seed start leftward one base at a time until the
      melting temperature reaches meltTemp (lines 44-49). */
  method ExtendLeft(v: string, primerEnd: nat, meltTemp: real, tm: MeltingTemp) returns (r: Result<nat>)
    requires SeedLength <= primerEnd <= |v|
    ensures r.Ok? ==> ExtendedLeftMinimally(v, r.value, primerEnd, meltTemp, tm)
    ensures r.Err? ==>
              r.error == InsufficientSequence &&
              forall s :: 0 <= s <= primerEnd - SeedLength ==> tm(v[s..primerEnd]) < meltTemp
  {
    var primerStart := primerEnd - SeedLength;
    var primer := v[primerStart..primerEnd];
    while tm(primer) < meltTemp
      invariant 0 <= primerStart <= primerEnd - SeedLength
      invariant primer == v[primerStart..primerEnd]
      invariant forall s :: primerStart < s <= primerEnd - SeedLength ==> tm(v[s..primerEnd]) < meltTemp
      decreases primerStart
    {
      if primerStart == 0 {
        return Err(InsufficientSequence);
      }
      primerStart := primerStart - 1;
      primer := v[primerStart..primerEnd];
    }
    return Ok(primerStart);
  }

  /** Moves the end of the seed primer at primerStart rightward one base at a
      time until accept holds (lines 55-62 and 78-82). When the seed itself
      would read past the sequence the model reports InsufficientSequence;
      when every end up to the sequence's end is rejected, the source loop
      never ends and the model reports MeltingTempNeverReached. */
  method ExtendRight(v: string, primerStart: nat, accept: string -> bool) returns (r: Result<nat>)
    ensures r.Ok? ==> GrewRightMinimally(v, primerStart, r.value, accept)
    ensures r == Err(InsufficientSequence) <==> primerStart + SeedLength > |v|
    ensures r == Err(MeltingTempNeverReached) ==>
              forall e :: primerStart + SeedLength <= e <= |v| ==> !accept(v[primerStart..e])
  {
    var primerEnd := primerStart + SeedLength;
    if primerEnd > |v| {
      return Err(InsufficientSequence);
    }
    while !accept(v[primerStart..primerEnd])
      invariant primerStart + SeedLength <= primerEnd <= |v|
      invariant forall e :: primerStart + SeedLength <= e < primerEnd ==> !accept(v[primerStart..e])
      decreases |v| - primerEnd
    {
      if primerEnd == |v| {
        return Err(MeltingTempNeverReached);
      }
      primerEnd := primerEnd + 1;
    }
    return Ok(primerEnd);
  }

  predicate InFrame(position: int, startIndex: int)
  {
    (position - startIndex) % 3 == 0
  }

  function Distance(a: int, b: int): nat
  {
    if a <= b then b - a else a - b
  }

  /** Moves primerStart by one base, if needed, to the codon boundary of the
      window nearest to it (lines 67-73). */
  function FrameCorrect(primerStart: int, startIndex: int): (r: int)
    ensures InFrame(r, startIndex)
    ensures Distance(r, primerStart) <= 1
    ensures forall q :: InFrame(q, startIndex) ==> Distance(q, primerStart) >= Distance(r, primerStart)
  {
    if (primerStart - startIndex) % 3 == 2 then primerStart + 1
    else if (primerStart - startIndex) % 3 == 1 then primerStart - 1
    else primerStart
  }

  /** Which stage of the forward primer design decided the final primer. */
  datatype Stage =
    | Framed             // leftward extension, then frame correction
    | ShortWindowGuard   // sub-window fixed at four codons, primer grown rightward
    | TerminalFallback   // primer moved to the window end and grown rightward

  /** The outcome of the forward primer design: the primer start after the
      leftward extension, the final primer bounds and bases, and the stage
      that produced them. */
  datatype ForwardDesign = ForwardDesign(
    extendedStart: nat,
    primerStart: nat,
    primerEnd: nat,
    primer: string,
    stage: Stage)

  /** The right edge the forward primer aims for. The source compares it with
      the window end (line 42 uses `==`, not `=`), so it is never clamped. */
  function TargetEnd(startIndex: nat, oligoLen: nat, homoLen: nat): int
  {
    startIndex + (oligoLen - homoLen)
  }

  /** The short-window guard fires when the leftward-extended primer leaves
      fewer than four codons of the oligo budget for the sub-window (line 52). */
  predicate GuardFires(extendedStart: int, startIndex: nat, oligoLen: nat, homoLen: nat)
  {
    TargetEnd(startIndex, oligoLen, homoLen) - extendedStart > oligoLen - homoLen - MinWindow
  }

  /** Where the primer starts before the terminal check (line 76). */
  function StartBeforeTerminal(extendedStart: int, startIndex: nat, oligoLen: nat, homoLen: nat): int
  {
    if GuardFires(extendedStart, startIndex, oligoLen, homoLen) then startIndex + MinWindow
    else FrameCorrect(extendedStart, startIndex)
  }

  /** The exit test of the short-window guard's loop (line 59). */
  predicate GuardGate(s: string, meltTemp: real, tm: MeltingTemp)
  {
    tm(s) > meltTemp && GcCount(s) > MinGuardGc
  }

  /** The exit test of the terminal fallback's loop (line 80). */
  predicate TempGate(s: string, meltTemp: real, tm: MeltingTemp)
  {
    tm(s) >= meltTemp
  }

  function GuardAccept(meltTemp: real, tm: MeltingTemp): string -> bool
  {
    s => GuardGate(s, meltTemp, tm)
  }

  function TempAccept(meltTemp: real, tm: MeltingTemp): string -> bool
  {
    s => TempGate(s, meltTemp, tm)
  }

  /** What a forward primer design that succeeds satisfies (lines 40-85). */
  ghost predicate ForwardDesigned(v: string, startIndex: nat, windowEnd: nat, oligoLen: nat, homoLen: nat,
                                  meltTemp: real, tm: MeltingTemp, d: ForwardDesign)
  {
    var te := TargetEnd(startIndex, oligoLen, homoLen);
    var pre := StartBeforeTerminal(d.extendedStart, startIndex, oligoLen, homoLen);
    var guard := GuardFires(d.extendedStart, startIndex, oligoLen, homoLen);
    // the result is the slice of the vector it names, and never starts past the window end
    d.primerStart <= d.primerEnd <= |v| &&
    d.primer == v[d.primerStart..d.primerEnd] &&
    d.primerStart <= windowEnd &&
    // leftward extension from the unclamped target end, whatever windowEnd is
    ExtendedLeftMinimally(v, d.extendedStart, te, meltTemp, tm) &&
    // which stage decided the primer
    (d.stage == TerminalFallback <==> pre > windowEnd) &&
    (d.stage == ShortWindowGuard <==> pre <= windowEnd && guard) &&
    (d.stage == Framed <==> pre <= windowEnd && !guard) &&
    // frame correction: in frame, at least four codons, end kept, start moved by at most one base
    (d.stage == Framed ==>
       te - d.extendedStart <= oligoLen - homoLen - MinWindow &&
       d.primerStart == FrameCorrect(d.extendedStart, startIndex) &&
       (d.primerStart - startIndex) % 3 == 0 &&
       d.primerStart - startIndex >= MinWindow &&
       d.primerEnd == te &&
       Distance(d.primerStart, d.extendedStart) <= 1 &&
       d.primerEnd - d.primerStart >= SeedLength - 1) &&
    // short-window guard: sub-window of exactly four codons, primer grown rightward
    (d.stage == ShortWindowGuard ==>
       d.primerStart == startIndex + MinWindow &&
       GrewRightMinimally(v, d.primerStart, d.primerEnd, GuardAccept(meltTemp, tm))) &&
    // terminal fallback: primer at the window end, grown rightward
    (d.stage == TerminalFallback ==>
       d.primerStart == windowEnd &&
       GrewRightMinimally(v, d.primerStart, d.primerEnd, TempAccept(meltTemp, tm)) &&
       (guard ==> RightSucceeds(v, startIndex + MinWindow, GuardAccept(meltTemp, tm))))
  }

  /** Why a rightward growth from start under accept fails: its seed reads
      past the vector, or every end up to the vector's end is rejected. */
  ghost predicate RightFails(v: string, start: int, accept: string -> bool, e: Error)
  {
    (e == InsufficientSequence && start + SeedLength > |v|) ||
    (e == MeltingTempNeverReached && 0 <= start && start + SeedLength <= |v| &&
     forall en :: start + SeedLength <= en <= |v| ==> !accept(v[start..en]))
  }

  /** Some end at or past the seed is accepted, so a rightward growth from
      start succeeds. */
  ghost predicate RightSucceeds(v: string, start: int, accept: string -> bool)
  {
    exists en :: 0 <= start && start + SeedLength <= en <= |v| && accept(v[start..en])
  }

  /** Why a forward primer design fails with error e: the target end leaves
      no room for the seed, the leftward extension runs out of sequence, or
      the rightward growth of the stage that was reached fails. */
  ghost predicate ForwardFailed(v: string, startIndex: nat, windowEnd: nat, oligoLen: nat, homoLen: nat,
                                meltTemp: real, tm: MeltingTemp, e: Error)
  {
    var te := TargetEnd(startIndex, oligoLen, homoLen);
    var guardStart := startIndex + MinWindow;
    ((te < SeedLength || te > |v|) && e == InsufficientSequence) ||
    (SeedLength <= te <= |v| && e == InsufficientSequence &&
     forall s :: 0 <= s <= te - SeedLength ==> tm(v[s..te]) < meltTemp) ||
    (exists ext :: ExtendedLeftMinimally(v, ext, te, meltTemp, tm) &&
       if GuardFires(ext, startIndex, oligoLen, homoLen) then
         RightFails(v, guardStart, GuardAccept(meltTemp, tm), e) ||
         (RightSucceeds(v, guardStart, GuardAccept(meltTemp, tm)) && guardStart > windowEnd &&
          RightFails(v, windowEnd, TempAccept(meltTemp, tm), e))
       else
         FrameCorrect(ext, startIndex) > windowEnd && RightFails(v, windowEnd, TempAccept(meltTemp, tm), e))
  }

  /** The forward primer state machine of lines 40-85. */
  method DesignForwardPrimer(v: string, startIndex: nat, windowEnd: nat, oligoLen: nat, homoLen: nat,
                             meltTemp: real, tm: MeltingTemp)
    returns (r: Result<ForwardDesign>)
    ensures r.Ok? ==> ForwardDesigned(v, startIndex, windowEnd, oligoLen, homoLen, meltTemp, tm, r.value)
    ensures r.Err? ==> ForwardFailed(v, startIndex, windowEnd, oligoLen, homoLen, meltTemp, tm, r.error)
  {
    var primerEnd: int := TargetEnd(startIndex, oligoLen, homoLen);
    if primerEnd < SeedLength || primerEnd > |v| {
      return Err(InsufficientSequence);
    }
    var left := ExtendLeft(v, primerEnd, meltTemp, tm);
    if left.Err? {
      return Err(left.error);
    }
    var extendedStart := left.value;
    var primerStart: int;
    var stage: Stage;
    if primerEnd - extendedStart > oligoLen - homoLen - MinWindow {
      primerStart := startIndex + MinWindow;
      var right := ExtendRight(v, primerStart, GuardAccept(meltTemp, tm));
      if right.Err? {
        return Err(right.error);
      }
      primerEnd := right.value;
      stage := ShortWindowGuard;
      assert RightSucceeds(v, primerStart, GuardAccept(meltTemp, tm)) by {
        assert GrewRightMinimally(v, primerStart, right.value, GuardAccept(meltTemp, tm));
      }
    } else {
      primerStart := FrameCorrect(extendedStart, startIndex);
      stage := Framed;
    }
    if primerStart > windowEnd {
      primerStart := windowEnd;
      var right := ExtendRight(v, primerStart, TempAccept(meltTemp, tm));
      if right.Err? {
        return Err(right.error);
      }
      primerEnd := right.value;
      stage := TerminalFallback;
    }
    return Ok(ForwardDesign(extendedStart, primerStart, primerEnd, v[primerStart..primerEnd], stage));
  }

  lemma LeftUnique(v: string, a: int, b: int, end: int, meltTemp: real, tm: MeltingTemp)
    requires ExtendedLeftMinimally(v, a, end, meltTemp, tm) && ExtendedLeftMinimally(v, b, end, meltTemp, tm)
    ensures a == b
  {
  }

  lemma RightUnique(v: string, start: int, a: int, b: int, accept: string -> bool)
    requires GrewRightMinimally(v, start, a, accept) && GrewRightMinimally(v, start, b, accept)
    ensures a == b
  {
  }

  /** The forward primer design is a function of its inputs: at most one
      design satisfies ForwardDesigned. */
  lemma ForwardDesignUnique(v: string, startIndex: nat, windowEnd: nat, oligoLen: nat, homoLen: nat,
                            meltTemp: real, tm: MeltingTemp, d1: ForwardDesign, d2: ForwardDesign)
    requires ForwardDesigned(v, startIndex, windowEnd, oligoLen, homoLen, meltTemp, tm, d1)
    requires ForwardDesigned(v, startIndex, windowEnd, oligoLen, homoLen, meltTemp, tm, d2)
    ensures d1 == d2
  {
    var te := TargetEnd(startIndex, oligoLen, homoLen);
    LeftUnique(v, d1.extendedStart, d2.extendedStart, te, meltTemp, tm);
    if d1.stage == ShortWindowGuard {
      RightUnique(v, d1.primerStart, d1.primerEnd, d2.primerEnd, GuardAccept(meltTemp, tm));
    } else if d1.stage == TerminalFallback {
      RightUnique(v, d1.primerStart, d1.primerEnd, d2.primerEnd, TempAccept(meltTemp, tm));
    }
  }

  /** Success and failure exclude each other: inputs for which some design
      satisfies ForwardDesigned admit no failure cause. */
  lemma ForwardOutcomesExclusive(v: string, startIndex: nat, windowEnd: nat, oligoLen: nat, homoLen: nat,
                                 meltTemp: real, tm: MeltingTemp, d: ForwardDesign, e: Error)
    requires ForwardDesigned(v, startIndex, windowEnd, oligoLen, homoLen, meltTemp, tm, d)
    ensures !ForwardFailed(v, startIndex, windowEnd, oligoLen, homoLen, meltTemp, tm, e)
  {
    var te := TargetEnd(startIndex, oligoLen, homoLen);
    var guardStart := startIndex + MinWindow;
    if ForwardFailed(v, startIndex, windowEnd, oligoLen, homoLen, meltTemp, tm, e) {
      if SeedLength <= te <= |v| && !(forall s :: 0 <= s <= te - SeedLength ==> tm(v[s..te]) < meltTemp) {
        var ext :| ExtendedLeftMinimally(v, ext, te, meltTemp, tm) &&
          if GuardFires(ext, startIndex, oligoLen, homoLen) then
            RightFails(v, guardStart, GuardAccept(meltTemp, tm), e) ||
            (RightSucceeds(v, guardStart, GuardAccept(meltTemp, tm)) && guardStart > windowEnd &&
             RightFails(v, windowEnd, TempAccept(meltTemp, tm), e))
          else
            FrameCorrect(ext, startIndex) > windowEnd && RightFails(v, windowEnd, TempAccept(meltTemp, tm), e);
        LeftUnique(v, ext, d.extendedStart, te, meltTemp, tm);
        assert false;
      }
    }
  }

  /** Frame correction does not check the temperature again: here the
      leftward extension stops at a 17-base primer, the frame correction
      drops one base, and the emitted 16-base primer is below the threshold. */
  lemma FramedPrimerCanMissThreshold()
    ensures var v := seq(100, _ => 'A');
            var tm: MeltingTemp := s => if |s| >= 17 then 100.0 else 0.0;
            var d := ForwardDesign(53, 54, 70, v[54..70], Framed);
            ForwardDesigned(v, 30, 90, 60, 20, 50.0, tm, d) &&
            d.stage == Framed && tm(d.primer) < 50.0
  {
    var v := seq(100, _ => 'A');
    var tm: MeltingTemp := s => if |s| >= 17 then 100.0 else 0.0;
    assert tm(v[53..70]) >= 50.0;
    assert forall s :: 53 < s <= 70 - SeedLength ==> tm(v[s..70]) < 50.0;
    assert FrameCorrect(53, 30) == 54;
  }

  /** With a melting temperature that every primer reaches, a window whose
      target end lies inside the vector, whose oligo budget leaves the seed
      and four codons, and whose frame-corrected start is not past the
      window end cannot fail: the leftward extension stops at the seed and
      the Framed stage decides the primer. */
  lemma SeedPrimerSucceeds(v: string, startIndex: nat, windowEnd: nat, oligoLen: nat, homoLen: nat,
                           meltTemp: real, tm: MeltingTemp, e: Error)
    requires forall s :: tm(s) >= meltTemp
    requires SeedLength <= TargetEnd(startIndex, oligoLen, homoLen) <= |v|
    requires oligoLen - homoLen >= SeedLength + MinWindow
    requires FrameCorrect(TargetEnd(startIndex, oligoLen, homoLen) - SeedLength, startIndex) <= windowEnd
    ensures var te := TargetEnd(startIndex, oligoLen, homoLen);
            var ps := FrameCorrect(te - SeedLength, startIndex);
            0 <= ps <= te &&
            ForwardDesigned(v, startIndex, windowEnd, oligoLen, homoLen, meltTemp, tm,
                            ForwardDesign(te - SeedLength, ps, te, v[ps..te], Framed))
    ensures !ForwardFailed(v, startIndex, windowEnd, oligoLen, homoLen, meltTemp, tm, e)
  {
    var te := TargetEnd(startIndex, oligoLen, homoLen);
    var ps := FrameCorrect(te - SeedLength, startIndex);
    assert ExtendedLeftMinimally(v, te - SeedLength, te, meltTemp, tm);
    ForwardOutcomesExclusive(v, startIndex, windowEnd, oligoLen, homoLen, meltTemp, tm,
                             ForwardDesign(te - SeedLength, ps, te, v[ps..te], Framed), e);
  }
}
