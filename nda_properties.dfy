/**
 * What the NDA assembler guarantees about its output: which clauses appear, in
 * what order and under which numbers, that the selection acts as a set of
 * names and that unknown names change nothing, and where the parties are
 * named in the document.
 */
module NdaProperties {
  import opened JsText
  import opened NdaTemplate

  // ---------------------------------------------------------------------------
  // Sequence helpers
  // ---------------------------------------------------------------------------

  /** The first position of `x` in `s`. */
  function IndexOf(s: seq<string>, x: string): (i: nat)
    requires x in s
    ensures i < |s| && s[i] == x
  {
    if s[0] == x then 0 else 1 + IndexOf(s[1..], x)
  }

  /** No name occurs twice in `s`. */
  predicate NoDuplicates(s: seq<string>) {
    s == [] || (s[0] !in s[1..] && NoDuplicates(s[1..]))
  }

  /** `t` occurs somewhere in `s`. */
  ghost predicate IsInfix(t: string, s: string) {
    exists k :: 0 <= k <= |s| && t <= s[k..]
  }

  lemma InfixOfConcat(a: string, t: string, b: string)
    ensures IsInfix(t, a + t + b)
  {
    assert t <= (a + t + b)[|a|..];
  }

  lemma InfixOfJoin(a: string, t: string, u: string)
    ensures IsInfix(t + u, a + t + u)
  {
    assert t + u <= (a + t + u)[|a|..];
  }

  lemma InfixExtendLeft(t: string, s: string, a: string)
    requires IsInfix(t, s)
    ensures IsInfix(t, a + s)
  {
    var k :| 0 <= k <= |s| && t <= s[k..];
    assert (a + s)[|a| + k..] == s[k..];
  }

  lemma InfixExtendRight(t: string, s: string, b: string)
    requires IsInfix(t, s)
    ensures IsInfix(t, s + b)
  {
    var k :| 0 <= k <= |s| && t <= s[k..];
    assert (s + b)[k..] == s[k..] + b;
  }

  /** `t` is the end of `s`. */
  predicate EndsWith(s: string, t: string) {
    |t| <= |s| && s[|s| - |t|..] == t
  }

  lemma EndsWithConcat(a: string, t: string)
    ensures EndsWith(a + t, t)
  {
    assert (a + t)[|a|..] == t;
  }

  lemma EndsWithExtendLeft(s: string, t: string, a: string)
    requires EndsWith(s, t)
    ensures EndsWith(a + s, t)
  {
    assert (a + s)[|a + s| - |t|..] == s[|s| - |t|..];
  }

  lemma PrefixExtendRight(t: string, s: string, b: string)
    requires t <= s
    ensures t <= s + b
  {
    assert (s + b)[..|t|] == s[..|t|];
  }

  // ---------------------------------------------------------------------------
  // The filter step
  // ---------------------------------------------------------------------------

  /** The filter only asks, for each name of `order`, whether it is in the
      keep list: two keep lists that agree on the names of `order` give the same
      result, whatever their order, duplicates or other names. */
  lemma {:induction false} FilterDependsOnlyOnMembership(order: seq<string>, k1: seq<string>, k2: seq<string>)
    requires forall x :: x in order ==> (x in k1 <==> x in k2)
    ensures Filter(order, k1) == Filter(order, k2)
  {
    if order != [] {
      FilterDependsOnlyOnMembership(order[1..], k1, k2);
    }
  }

  /** The filter keeps the relative order of `order`: of two kept names, the
      one earlier in `order` comes first. */
  lemma {:induction false} FilterKeepsOrder(order: seq<string>, keep: seq<string>, i: nat, j: nat)
    requires NoDuplicates(order)
    requires i < j < |Filter(order, keep)|
    ensures IndexOf(order, Filter(order, keep)[i]) < IndexOf(order, Filter(order, keep)[j])
  {
    var tail := order[1..];
    var r := Filter(order, keep);
    var rest := Filter(tail, keep);
    if order[0] in keep {
      assert r == [order[0]] + rest;
      var y := rest[j - 1];
      assert r[j] == y;
      FilterKeptFromTail(tail, keep, j - 1);
      IndexInTail(order, y);
      if i == 0 {
        assert r[i] == order[0];
        assert IndexOf(order, order[0]) == 0;
      } else {
        var x := rest[i - 1];
        assert r[i] == x;
        FilterKeptFromTail(tail, keep, i - 1);
        IndexInTail(order, x);
        FilterKeepsOrder(tail, keep, i - 1, j - 1);
      }
    } else {
      assert r == rest;
      var x, y := rest[i], rest[j];
      FilterKeptFromTail(tail, keep, i);
      FilterKeptFromTail(tail, keep, j);
      IndexInTail(order, x);
      IndexInTail(order, y);
      FilterKeepsOrder(tail, keep, i, j);
    }
  }

  lemma FilterKeptFromTail(tail: seq<string>, keep: seq<string>, k: nat)
    requires k < |Filter(tail, keep)|
    ensures Filter(tail, keep)[k] in tail
  {
    FilterMembers(tail, keep);
  }

  /** In a list without duplicates, a name of the tail sits one place further
      than in the tail. */
  lemma IndexInTail(order: seq<string>, y: string)
    requires order != [] && y in order[1..] && order[0] !in order[1..]
    ensures IndexOf(order, y) == 1 + IndexOf(order[1..], y)
  {
    var p := IndexOf(order[1..], y);
    assert order[p + 1] == y;
  }

  // ---------------------------------------------------------------------------
  // Which clauses, in which order
  // ---------------------------------------------------------------------------

  lemma CanonicalOrderHasNoDuplicates()
    ensures NoDuplicates(CanonicalOrder)
  {
    PairwiseDistinct(CanonicalOrder);
  }

  /** Pairwise distinct names have no duplicates. */
  lemma {:induction false} PairwiseDistinct(s: seq<string>)
    requires forall p, q :: 0 <= p < q < |s| ==> s[p] != s[q]
    ensures NoDuplicates(s)
  {
    if s != [] {
      forall k | 0 <= k < |s| - 1 ensures s[1..][k] != s[0] {
        assert s[1..][k] == s[k + 1];
      }
      PairwiseDistinct(s[1..]);
    }
  }

  /** The clauses of an agreement: the three leading defaults, Permitted Use
      exactly when selected, Intellectual Property exactly when selected, then
      the three closing defaults. So the six defaults always appear, nothing
      else can appear, and there are between six and eight clauses. */
  lemma SortedClauseNamesCases(selectedClauseNames: seq<string>)
    ensures SortedClauseNames(selectedClauseNames)
         == [ConfidentialInformationDefinition, NonUseAndNonDisclosure, ExclusionsFromConfidentialInformation]
            + (if PermittedUse in selectedClauseNames then [PermittedUse] else [])
            + (if IntellectualProperty in selectedClauseNames then [IntellectualProperty] else [])
            + [TermAndTermination, GoverningLawAndJurisdiction, EntireAgreement]
    ensures 6 <= |SortedClauseNames(selectedClauseNames)| <= 8
    ensures forall name :: name in DefaultClauses ==> name in SortedClauseNames(selectedClauseNames)
  {
    var keep := Distinct(DefaultClauses + selectedClauseNames);
    CanonicalMembership(selectedClauseNames);
    FilterOfEight(CanonicalOrder, keep);
  }

  /** Filtering eight names of which the first three and the last three are
      kept. */
  lemma FilterOfEight(o: seq<string>, keep: seq<string>)
    requires |o| == 8
    requires o[0] in keep && o[1] in keep && o[2] in keep
    requires o[5] in keep && o[6] in keep && o[7] in keep
    ensures Filter(o, keep)
         == [o[0], o[1], o[2]]
            + (if o[3] in keep then [o[3]] else [])
            + (if o[4] in keep then [o[4]] else [])
            + [o[5], o[6], o[7]]
  {
    var closing := [o[5], o[6], o[7]];
    var ip := if o[4] in keep then [o[4]] else [];
    var pu := if o[3] in keep then [o[3]] else [];
    FilterLastFive(o, keep);
    FilterStep(o, 2, keep);
    FilterStep(o, 1, keep);
    FilterStep(o, 0, keep);
    assert o[0..] == o;
    Regroup(o[0], o[1], o[2], pu, ip, closing);
  }

  lemma FilterLastFive(o: seq<string>, keep: seq<string>)
    requires |o| == 8
    requires o[5] in keep && o[6] in keep && o[7] in keep
    ensures Filter(o[3..], keep)
         == (if o[3] in keep then [o[3]] else [])
            + ((if o[4] in keep then [o[4]] else []) + [o[5], o[6], o[7]])
  {
    FilterStep(o, 7, keep);
    FilterStep(o, 6, keep);
    FilterStep(o, 5, keep);
    assert Filter(o[5..], keep) == [o[5], o[6], o[7]];
    FilterStep(o, 4, keep);
    FilterStep(o, 3, keep);
  }

  /** Which canonical names the merged list of defaults and selection holds. */
  lemma CanonicalMembership(selectedClauseNames: seq<string>)
    ensures var keep := Distinct(DefaultClauses + selectedClauseNames);
      && CanonicalOrder[0] in keep && CanonicalOrder[1] in keep && CanonicalOrder[2] in keep
      && (CanonicalOrder[3] in keep <==> PermittedUse in selectedClauseNames)
      && (CanonicalOrder[4] in keep <==> IntellectualProperty in selectedClauseNames)
      && CanonicalOrder[5] in keep && CanonicalOrder[6] in keep && CanonicalOrder[7] in keep
  {
    var keep := Distinct(DefaultClauses + selectedClauseNames);
    MergedMembership(selectedClauseNames);
    OptionalNotDefault();
    assert CanonicalOrder[3] == PermittedUse && CanonicalOrder[4] == IntellectualProperty;
    assert CanonicalOrder[0] == DefaultClauses[0] && CanonicalOrder[1] == DefaultClauses[1];
    assert CanonicalOrder[2] == DefaultClauses[2] && CanonicalOrder[5] == DefaultClauses[3];
    assert CanonicalOrder[6] == DefaultClauses[4] && CanonicalOrder[7] == DefaultClauses[5];
  }

  /** A name is in the merged list exactly when it is a default or selected. */
  lemma MergedMembership(selectedClauseNames: seq<string>)
    ensures forall x :: x in Distinct(DefaultClauses + selectedClauseNames)
                    <==> x in DefaultClauses || x in selectedClauseNames
  {
  }

  /** The two optional clauses are not defaults. */
  lemma OptionalNotDefault()
    ensures PermittedUse !in DefaultClauses && IntellectualProperty !in DefaultClauses
  {
  }

  /** One step of the filter, from position `k` of `order`. */
  lemma FilterStep(order: seq<string>, k: nat, keep: seq<string>)
    requires k < |order|
    ensures Filter(order[k..], keep) == (if order[k] in keep then [order[k]] else []) + Filter(order[k + 1..], keep)
  {
    assert order[k..][1..] == order[k + 1..];
  }

  lemma Regroup(a: string, b: string, c: string, d: seq<string>, e: seq<string>, f: seq<string>)
    ensures [a] + ([b] + ([c] + (d + (e + f)))) == [a, b, c] + d + e + f
  {
  }

  /** A name is rendered exactly when it is a canonical clause name that is a
      default or is selected. */
  lemma SortedClauseNamesMembers(selectedClauseNames: seq<string>, name: string)
    ensures name in SortedClauseNames(selectedClauseNames)
        <==> name in CanonicalOrder && (name in DefaultClauses || name in selectedClauseNames)
  {
    FilterMembers(CanonicalOrder, Distinct(DefaultClauses + selectedClauseNames));
  }

  /** Rendered clauses keep the canonical relative order. */
  lemma SortedClauseNamesCanonicalOrder(selectedClauseNames: seq<string>, i: nat, j: nat)
    requires i < j < |SortedClauseNames(selectedClauseNames)|
    ensures IndexOf(CanonicalOrder, SortedClauseNames(selectedClauseNames)[i])
          < IndexOf(CanonicalOrder, SortedClauseNames(selectedClauseNames)[j])
  {
    CanonicalOrderHasNoDuplicates();
    FilterKeepsOrder(CanonicalOrder, Distinct(DefaultClauses + selectedClauseNames), i, j);
  }

  /** Three example selections: none, Intellectual Property, and an unknown
      name beside Permitted Use. */
  lemma SelectionScenarios()
    ensures SortedClauseNames([]) == DefaultClauses
    ensures SortedClauseNames([IntellectualProperty])
         == [ConfidentialInformationDefinition, NonUseAndNonDisclosure, ExclusionsFromConfidentialInformation,
             IntellectualProperty, TermAndTermination, GoverningLawAndJurisdiction, EntireAgreement]
    ensures SortedClauseNames(["Bogus Clause", PermittedUse])
         == [ConfidentialInformationDefinition, NonUseAndNonDisclosure, ExclusionsFromConfidentialInformation,
             PermittedUse, TermAndTermination, GoverningLawAndJurisdiction, EntireAgreement]
  {
    SortedClauseNamesCases([]);
    SortedClauseNamesCases([IntellectualProperty]);
    SortedClauseNamesCases(["Bogus Clause", PermittedUse]);
  }

  // ---------------------------------------------------------------------------
  // The selection is a set of names, and unknown names are ignored
  // ---------------------------------------------------------------------------

  /** Two selections that agree on the canonical clause names give the same
      agreement. */
  lemma SameKnownSelectionSameText(data: NdaData, s1: seq<string>, s2: seq<string>)
    requires forall name :: name in CanonicalOrder ==> (name in s1 <==> name in s2)
    ensures SortedClauseNames(s1) == SortedClauseNames(s2)
    ensures NdaText(data, s1) == NdaText(data, s2)
  {
    FilterDependsOnlyOnMembership(CanonicalOrder, Distinct(DefaultClauses + s1), Distinct(DefaultClauses + s2));
  }

  /** The order of the selection and repeated names in it make no difference. */
  lemma SelectionActsAsSet(data: NdaData, s1: seq<string>, s2: seq<string>)
    requires forall name :: name in s1 <==> name in s2
    ensures NdaText(data, s1) == NdaText(data, s2)
  {
    SameKnownSelectionSameText(data, s1, s2);
  }

  /** Adding a name that is not a clause of the library changes neither the
      clauses nor the text. */
  lemma UnknownNameIgnored(data: NdaData, selectedClauseNames: seq<string>, unknown: string)
    requires unknown !in CanonicalOrder
    ensures SortedClauseNames(selectedClauseNames + [unknown]) == SortedClauseNames(selectedClauseNames)
    ensures NdaText(data, selectedClauseNames + [unknown]) == NdaText(data, selectedClauseNames)
  {
    SameKnownSelectionSameText(data, selectedClauseNames + [unknown], selectedClauseNames);
  }

  // ---------------------------------------------------------------------------
  // Layout and numbering of the document
  // ---------------------------------------------------------------------------

  /** The document is the preamble, the clause blocks and the signature
      block; trimming only removes the white space at the end of the
      signature block. */
  lemma DocumentLayout(data: NdaData, blocks: seq<string>)
    ensures Document(data, blocks) == Preamble(data) + Concat(blocks) + TrimEnd(SignatureBlock(data))
  {
    var head := Preamble(data) + Concat(blocks);
    var tail := SignatureBlock(data);
    PrefixExtendRight(Title, Preamble(data), Concat(blocks));
    DocumentEnds(data, head);
    TrimStartKeeps(head + tail);
    TrimEndAppend(head, tail);
  }

  /** The agreement is the preamble, the default and selected clauses
      numbered from 1 in canonical order, and the signature block with its
      trailing white space trimmed. */
  lemma NdaTextLayout(data: NdaData, selectedClauseNames: seq<string>)
    ensures InLibrary(SortedClauseNames(selectedClauseNames))
    ensures NdaText(data, selectedClauseNames)
         == Preamble(data) + Concat(NumberedClauses(SortedClauseNames(selectedClauseNames)))
            + TrimEnd(SignatureBlock(data))
  {
    var names := SortedClauseNames(selectedClauseNames);
    CanonicalNamesInLibrary(names);
    DocumentLayout(data, NumberedClauses(names));
  }

  /** Neither end of the joined document is white space that trimming could
      reach into: it starts with the title, and the signature block holds
      more than white space. */
  lemma DocumentEnds(data: NdaData, head: string)
    requires Title <= head
    ensures (head + SignatureBlock(data))[0] == 'N'
    ensures !AllSpace(SignatureBlock(data))
  {
    var tail := SignatureBlock(data);
    assert Title[0] == 'N';
    assert head[0] == 'N';
    assert WitnessLine[0] == 'I';
    assert tail[1] == ("\n" + WitnessLine)[1];
  }

  /** The i-th clause of the document (from 0) is a new line, the single digit
      i + 1, a dot, a space and the library's clause text: the clauses are
      numbered 1 to k without gap or repeat. */
  lemma ClauseNumbering(selectedClauseNames: seq<string>, i: nat)
    requires i < |SortedClauseNames(selectedClauseNames)|
    ensures SortedClauseNames(selectedClauseNames)[i] in ClauseTexts
    ensures NumberedClauses(SortedClauseNames(selectedClauseNames))[i]
         == "\n" + [DigitChar(i + 1)] + ". " + ClauseTexts[SortedClauseNames(selectedClauseNames)[i]]
  {
    var names := SortedClauseNames(selectedClauseNames);
    LibraryCoversCanonicalOrder();
    assert |names| <= |CanonicalOrder| == 8;
    NumberedClauseAt(names, i);
  }

  lemma NumberedClauseAt(names: seq<string>, i: nat)
    requires InLibrary(names)
    requires i < |names| && i + 1 < 10
    ensures NumberedClauses(names)[i] == "\n" + [DigitChar(i + 1)] + ". " + ClauseTexts[names[i]]
  {
    assert NumberedClauses(names)[i] == NumberedClause(i + 1, names[i]);
  }

  // ---------------------------------------------------------------------------
  // The parties in the document
  // ---------------------------------------------------------------------------

  /** The preamble names each party on a line of its own. */
  lemma PreambleNamesParties(data: NdaData)
    ensures IsInfix("Disclosing Party: " + data.disclosingParty + "\n", Preamble(data))
    ensures IsInfix("Receiving Party: " + data.receivingParty + "\n", Preamble(data))
  {
    var opening := Title
      + PreambleIntro
      + data.effectiveDate
      + " (the \"Effective Date\")" + ", by and between:\n\n";
    var disclosing := "Disclosing Party: " + data.disclosingParty + "\n";
    var receiving := "Receiving Party: " + data.receivingParty + "\n";
    var closing := PreambleClosing;
    assert Preamble(data) == opening + disclosing + receiving + closing;
    InfixOfConcat(opening, disclosing, receiving);
    InfixExtendRight(disclosing, opening + disclosing + receiving, closing);
    InfixOfConcat(opening + disclosing, receiving, closing);
  }

  /** The preamble gives the effective date, followed by its defined name. */
  lemma PreambleStatesDate(data: NdaData)
    ensures IsInfix(data.effectiveDate + " (the \"Effective Date\")", Preamble(data))
  {
    var date := data.effectiveDate;
    var named := " (the \"Effective Date\")";
    var s1 := Title + PreambleIntro + date + named;
    var s2 := s1 + ", by and between:\n\n";
    var s3 := s2 + ("Disclosing Party: " + data.disclosingParty + "\n");
    var s4 := s3 + ("Receiving Party: " + data.receivingParty + "\n");
    InfixOfJoin(Title + PreambleIntro, date, named);
    InfixExtendRight(date + named, s1, ", by and between:\n\n");
    InfixExtendRight(date + named, s2, "Disclosing Party: " + data.disclosingParty + "\n");
    InfixExtendRight(date + named, s3, "Receiving Party: " + data.receivingParty + "\n");
    InfixExtendRight(date + named, s4, PreambleClosing);
  }

  /** The trimmed signature block names the disclosing party on its signature
      line and ends with the receiving party's signature line: the name with
      its trailing white space trimmed, or just `Name:` when the name is blank. */
  lemma SignatureNamesParties(data: NdaData)
    ensures IsInfix("Name: " + data.disclosingParty + "\n", TrimEnd(SignatureBlock(data)))
    ensures !AllSpace(data.receivingParty)
        ==> EndsWith(TrimEnd(SignatureBlock(data)), "Name: " + TrimEnd(data.receivingParty))
    ensures AllSpace(data.receivingParty) ==> EndsWith(TrimEnd(SignatureBlock(data)), "Name:")
  {
    var opener := "\n" + WitnessLine + "\n\nDISCLOSING PARTY:\n\nBy: _________________________\n";
    var signer := "Name: " + data.disclosingParty + "\n";
    var middle := "\n\nRECEIVING PARTY:\n\nBy: _________________________\n";
    var nameLine := "Name: " + data.receivingParty;
    var last := nameLine + "\n";
    assert SignatureBlock(data) == opener + signer + middle + last;
    assert !AllSpace(last) by {
      assert last[0] == 'N';
    }
    TrimEndAppend(opener + signer + middle, last);
    InfixOfConcat(opener, signer, middle);
    InfixExtendRight(signer, opener + signer + middle, TrimEnd(last));
    if !AllSpace(data.receivingParty) {
      TrimEndDropsSpace(nameLine, '\n');
      TrimEndAppend("Name: ", data.receivingParty);
      EndsWithConcat(opener + signer + middle, "Name: " + TrimEnd(data.receivingParty));
    } else {
      BlankNameLine(data.receivingParty);
      EndsWithConcat(opener + signer + middle, "Name:");
    }
  }

  /** A name line whose name is only white space trims down to `Name:`. */
  lemma BlankNameLine(name: string)
    requires AllSpace(name)
    ensures TrimEnd("Name: " + name + "\n") == "Name:"
  {
    var pad := " " + name + "\n";
    assert "Name: " + name + "\n" == "Name:" + pad;
    forall i | 0 <= i < |pad| ensures IsSpace(pad[i]) {
      if 0 < i < |pad| - 1 {
        assert pad[i] == name[i - 1];
      }
    }
    TrimEndPadded("Name:", pad);
  }

  /** The document starts with the title, gives the effective date and names
      both parties in the preamble, names the disclosing party on its signature
      line, and ends with the receiving party's signature line with its
      trailing white space trimmed (just `Name:` when that name is blank),
      whatever clauses it holds. */
  lemma PartiesNamed(data: NdaData, blocks: seq<string>)
    ensures Title <= Document(data, blocks)
    ensures IsInfix("Disclosing Party: " + data.disclosingParty + "\n", Document(data, blocks))
    ensures IsInfix("Receiving Party: " + data.receivingParty + "\n", Document(data, blocks))
    ensures IsInfix("Name: " + data.disclosingParty + "\n", Document(data, blocks))
    ensures !AllSpace(data.receivingParty)
        ==> EndsWith(Document(data, blocks), "Name: " + TrimEnd(data.receivingParty))
    ensures AllSpace(data.receivingParty) ==> EndsWith(Document(data, blocks), "Name:")
    ensures IsInfix(data.effectiveDate + " (the \"Effective Date\")", Document(data, blocks))
  {
    var pre := Preamble(data);
    var clauses := Concat(blocks);
    var trimmed := TrimEnd(SignatureBlock(data));
    DocumentLayout(data, blocks);
    PreambleNamesParties(data);
    SignatureNamesParties(data);
    PrefixExtendRight(Title, pre, clauses);
    PrefixExtendRight(Title, pre + clauses, trimmed);
    InfixExtendRight("Disclosing Party: " + data.disclosingParty + "\n", pre, clauses);
    InfixExtendRight("Disclosing Party: " + data.disclosingParty + "\n", pre + clauses, trimmed);
    InfixExtendRight("Receiving Party: " + data.receivingParty + "\n", pre, clauses);
    InfixExtendRight("Receiving Party: " + data.receivingParty + "\n", pre + clauses, trimmed);
    InfixExtendLeft("Name: " + data.disclosingParty + "\n", trimmed, pre + clauses);
    if !AllSpace(data.receivingParty) {
      EndsWithExtendLeft(trimmed, "Name: " + TrimEnd(data.receivingParty), pre + clauses);
    } else {
      EndsWithExtendLeft(trimmed, "Name:", pre + clauses);
    }
    PreambleStatesDate(data);
    InfixExtendRight(data.effectiveDate + " (the \"Effective Date\")", pre, clauses);
    InfixExtendRight(data.effectiveDate + " (the \"Effective Date\")", pre + clauses, trimmed);
  }
}
