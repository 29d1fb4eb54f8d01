/**
 * The NDA clause assembler: the clause library, the default clause set, the
 * canonical clause order, the preamble and signature templates, and the
 * function that merges a clause selection with the defaults, orders and
 * renumbers the clauses and joins everything into one document.
 */
module NdaTemplate {
  import opened JsText

  /** The party data of one agreement. `effectiveDate` is the effective date
      as already formatted with the pattern "MMMM d, yyyy" (for instance
      "January 15, 2024"); the calendar formatting itself is not modelled. */
  datatype NdaData = NdaData(disclosingParty: string, receivingParty: string, effectiveDate: string)

  // ---------------------------------------------------------------------------
  // Templates
  // ---------------------------------------------------------------------------

  const Title := "NON-DISCLOSURE AGREEMENT"

  // The fixed text of the preamble around the date and the party lines.
  const PreambleIntro := "\n\nThis Non-Disclosure Agreement (the \"Agreement\") is entered into as of "
  const PreambleClosing :=
    "\n(Each, a \"Party\" and collectively, the \"Parties\").\n\nIn consideration of the mutual covenants contained herein, the Parties agree as follows:\n"

  /** The opening of the agreement: title, effective date and both parties.
      It starts with the title. */
  function Preamble(data: NdaData): (p: string)
    ensures Title <= p
  {
    Title
    + PreambleIntro
    + data.effectiveDate
    + " (the \"Effective Date\")" + ", by and between:\n\n"
    + ("Disclosing Party: " + data.disclosingParty + "\n")
    + ("Receiving Party: " + data.receivingParty + "\n")
    + PreambleClosing
  }

  const WitnessLine := "IN WITNESS WHEREOF," + " the Parties have executed this Agreement as of the Effective Date."

  /** The closing of the agreement: a signature line naming each party. It
      opens with a new line and the witness sentence. */
  function SignatureBlock(data: NdaData): (b: string)
    ensures "\n" + WitnessLine <= b
  {
    "\n" + WitnessLine + "\n\nDISCLOSING PARTY:\n\nBy: _________________________\n"
    + ("Name: " + data.disclosingParty + "\n")
    + "\n\nRECEIVING PARTY:\n\nBy: _________________________\n"
    + ("Name: " + data.receivingParty + "\n")
  }

  // ---------------------------------------------------------------------------
  // The clause library
  // ---------------------------------------------------------------------------

  // Names of the eight clauses of the library.
  const ConfidentialInformationDefinition := "Confidential Information Definition"
  const NonUseAndNonDisclosure := "Non-Use and Non-Disclosure"
  const ExclusionsFromConfidentialInformation := "Exclusions from Confidential Information"
  const TermAndTermination := "Term and Termination"
  const IntellectualProperty := "Intellectual Property"
  const PermittedUse := "Permitted Use"
  const GoverningLawAndJurisdiction := "Governing Law and Jurisdiction"
  const EntireAgreement := "Entire Agreement"

  // The text of each stored clause body after its placeholder ordinal: a bold
  // heading, then the prose.
  const DefinitionText :=
    "**Definition of Confidential Information.**"
    + " \"Confidential Information\" means all non-public information disclosed by the Disclosing Party to the Receiving Party, whether orally or in writing, that is designated as confidential or that reasonably should be understood to be confidential given the nature of the information and the circumstances of disclosure."
  const NonUseText :=
    "**Non-Use and Non-Disclosure.**"
    + " The Receiving Party agrees not to use any Confidential Information for any purpose except to evaluate and engage in discussions concerning a potential business relationship between the Parties. The Receiving Party agrees not to disclose any Confidential Information to third parties or to its employees, except to those employees who are required to have the information in order to evaluate or engage in discussions concerning the contemplated business relationship."
  const ExclusionsText :=
    "**Exclusions.**"
    + " Confidential Information does not include information that: (a) is or becomes generally available to the public other than as a result of a disclosure by the Receiving Party; (b) was in its possession or known by it prior to receipt from the Disclosing Party; (c) was rightfully disclosed to it without restriction by a third party; or (d) was independently developed without use of any Confidential Information of the Disclosing Party."
  const TermText :=
    "**Term.**"
    + " The obligations of the Receiving Party under this Agreement shall survive for a period of five (5) years from the date of disclosure of the Confidential Information. The term of this Agreement shall be one (1) year from the Effective Date, unless terminated earlier by either Party with 30 days written notice."
  const IntellectualPropertyText :=
    "**Intellectual Property.**"
    + " Nothing in this Agreement is intended to grant any rights to the Receiving Party under any patent, copyright, or other intellectual property right of the Disclosing Party, nor shall this Agreement grant the Receiving Party any rights in or to the Confidential Information except as expressly set forth herein."
  const PermittedUseText :=
    "**Permitted Use.**"
    + " The Receiving Party may use the Confidential Information solely for the purpose of evaluating a potential business relationship between the Parties. Any other use of the Confidential Information by the Receiving Party is strictly prohibited without the prior written consent of the Disclosing Party."
  const GoverningLawText :=
    "**Governing Law.**"
    + " This Agreement shall be governed by the laws of the State of Delaware, without regard to its conflict of laws principles. Any legal action or proceeding arising under this Agreement will be brought exclusively in the federal or state courts located in Delaware and the Parties irrevocably consent to the personal jurisdiction and venue therein."
  const EntireAgreementText :=
    "**Entire Agreement.**"
    + " This Agreement contains the entire agreement between the Parties with respect to the subject matter hereof and supersedes all prior and contemporaneous agreements, understandings, negotiations, and discussions, whether oral or in writing, of the Parties."

  // The body templates of the library, one per clause; none of them uses the
  // party data.
  function DefinitionBody(data: NdaData): string { "\n1.  " + DefinitionText }
  function NonUseBody(data: NdaData): string { "\n2.  " + NonUseText }
  function ExclusionsBody(data: NdaData): string { "\n3.  " + ExclusionsText }
  function TermBody(data: NdaData): string { "\n4.  " + TermText }
  function IntellectualPropertyBody(data: NdaData): string { "\n5.  " + IntellectualPropertyText }
  function PermittedUseBody(data: NdaData): string { "\n6.  " + PermittedUseText }
  function GoverningLawBody(data: NdaData): string { "\n7.  " + GoverningLawText }
  function EntireAgreementBody(data: NdaData): string { "\n8.  " + EntireAgreementText }

  /** The clause library: name to body template. Every template ignores the
      party data, and every stored body is a new line, a placeholder ordinal
      (the entry's position in this table), a dot, two spaces and the clause
      text. */
  const Clauses: map<string, NdaData -> string> := map[
    ConfidentialInformationDefinition := DefinitionBody,
    NonUseAndNonDisclosure := NonUseBody,
    ExclusionsFromConfidentialInformation := ExclusionsBody,
    TermAndTermination := TermBody,
    IntellectualProperty := IntellectualPropertyBody,
    PermittedUse := PermittedUseBody,
    GoverningLawAndJurisdiction := GoverningLawBody,
    EntireAgreement := EntireAgreementBody
  ]

  /** The clause text each library entry stores after its placeholder ordinal.
      This table and `StoredPrefix` below split each body of `Clauses` into its
      two parts, so that the numbered clauses (`NumberedClause`) can be stated
      on the clause texts alone, without the regular-expression rewrite;
      `StoredBodyShape` proves that the two parts put together are the body. */
  const ClauseTexts: map<string, string> := map[
    ConfidentialInformationDefinition := DefinitionText,
    NonUseAndNonDisclosure := NonUseText,
    ExclusionsFromConfidentialInformation := ExclusionsText,
    TermAndTermination := TermText,
    IntellectualProperty := IntellectualPropertyText,
    PermittedUse := PermittedUseText,
    GoverningLawAndJurisdiction := GoverningLawText,
    EntireAgreement := EntireAgreementText
  ]

  /** The clauses every agreement contains, whatever the selection. */
  const DefaultClauses: seq<string> := [
    ConfidentialInformationDefinition,
    NonUseAndNonDisclosure,
    ExclusionsFromConfidentialInformation,
    TermAndTermination,
    GoverningLawAndJurisdiction,
    EntireAgreement
  ]

  /** The order in which clauses appear in every agreement. */
  const CanonicalOrder: seq<string> := [
    ConfidentialInformationDefinition,
    NonUseAndNonDisclosure,
    ExclusionsFromConfidentialInformation,
    PermittedUse,
    IntellectualProperty,
    TermAndTermination,
    GoverningLawAndJurisdiction,
    EntireAgreement
  ]

  /** Every name of `names` is a canonical clause name. */
  predicate AllCanonical(names: seq<string>) {
    forall name :: name in names ==> name in CanonicalOrder
  }

  /** Every name of `names` is a library entry with a stored clause text. */
  predicate InLibrary(names: seq<string>) {
    forall name :: name in names ==> name in Clauses && name in ClauseTexts
  }

  /** The library holds exactly the canonical clauses. */
  lemma LibraryCoversCanonicalOrder()
    ensures forall name :: name in CanonicalOrder <==> name in Clauses
    ensures forall name :: name in Clauses <==> name in ClauseTexts
  {
  }

  /** Canonical names are library entries and have a stored clause text. */
  lemma CanonicalNamesInLibrary(names: seq<string>)
    requires AllCanonical(names)
    ensures InLibrary(names)
  {
    LibraryCoversCanonicalOrder();
  }

  /** Each library entry renders the same text whatever the party data. */
  lemma ClausesIgnorePartyData(name: string, d1: NdaData, d2: NdaData)
    requires name in Clauses
    ensures Clauses[name](d1) == Clauses[name](d2)
  {
  }

  /** The placeholder prefix each library entry stores: a new line, the
      entry's position in the table, a dot and two spaces. */
  function StoredPrefix(name: string): (prefix: string)
  {
    if name == ConfidentialInformationDefinition then "\n1.  "
    else if name == NonUseAndNonDisclosure then "\n2.  "
    else if name == ExclusionsFromConfidentialInformation then "\n3.  "
    else if name == TermAndTermination then "\n4.  "
    else if name == IntellectualProperty then "\n5.  "
    else if name == PermittedUse then "\n6.  "
    else if name == GoverningLawAndJurisdiction then "\n7.  "
    else "\n8.  "
  }

  /** Every placeholder prefix is a new line, one digit, a dot and two
      spaces. */
  lemma StoredPrefixShape(name: string)
    ensures var p := StoredPrefix(name);
      |p| == 5 && p[0] == '\n' && IsDigit(p[1]) && p[2] == '.' && p[3] == ' ' && p[4] == ' '
  {
  }

  /** Every stored body is its placeholder prefix followed by its clause text. */
  lemma StoredBodyShape(name: string, data: NdaData)
    requires name in Clauses
    ensures name in ClauseTexts
    ensures Clauses[name](data) == StoredPrefix(name) + ClauseTexts[name]
  {
  }

  /** Every clause text starts with the bold heading marker. */
  lemma ClauseTextHeading(name: string)
    requires name in ClauseTexts
    ensures ClauseTexts[name][0] == '*'
  {
  }

  lemma StoredBodyRenumbered(name: string, data: NdaData, replacement: string)
    requires name in Clauses
    ensures name in ClauseTexts && ClauseTexts[name][0] == '*'
    ensures ReplaceLeadingOrdinal(Clauses[name](data), replacement) == replacement + ClauseTexts[name]
  {
    StoredBodyShape(name, data);
    ClauseTextHeading(name);
    StoredPrefixShape(name);
    var p := StoredPrefix(name);
    ReplaceStoredPrefix(p, ClauseTexts[name], replacement);
  }

  // ---------------------------------------------------------------------------
  // Merging and ordering the selection
  // ---------------------------------------------------------------------------

  /** `Array.from(new Set(names))`: each name once, in order of first
      occurrence (a Set adds a value only if it is not already there). */
  function Distinct(names: seq<string>): (r: seq<string>)
    ensures forall x :: x in r <==> x in names
    ensures forall i, j :: 0 <= i < j < |r| ==> r[i] != r[j]
  {
    if names == [] then []
    else
      var r := Distinct(names[..|names| - 1]);
      var x := names[|names| - 1];
      if x in r then r else r + [x]
  }

  /** `order.filter((name) => keep.includes(name))`. */
  function Filter(order: seq<string>, keep: seq<string>): (r: seq<string>)
    ensures |r| <= |order|
    ensures forall k :: 0 <= k < |r| ==> r[k] in order
  {
    if order == [] then []
    else (if order[0] in keep then [order[0]] else []) + Filter(order[1..], keep)
  }

  /** The filter keeps exactly the names of `order` that are in `keep`. */
  lemma {:induction false} FilterMembers(order: seq<string>, keep: seq<string>)
    ensures forall x :: x in Filter(order, keep) <==> x in order && x in keep
  {
    if order != [] {
      FilterMembers(order[1..], keep);
      assert order == [order[0]] + order[1..];
    }
  }

  /** The names of the clauses an agreement contains, in the order they appear:
      the canonical order, restricted to the defaults and the selection. */
  function SortedClauseNames(selectedClauseNames: seq<string>): (names: seq<string>)
    ensures AllCanonical(names)
  {
    FilterMembers(CanonicalOrder, Distinct(DefaultClauses + selectedClauseNames));
    Filter(CanonicalOrder, Distinct(DefaultClauses + selectedClauseNames))
  }

  // ---------------------------------------------------------------------------
  // The document
  // ---------------------------------------------------------------------------

  /** The clause `name` as it appears in the agreement under `ordinal`: a new
      line, the ordinal, a dot, one space, then the stored clause text. */
  function NumberedClause(ordinal: nat, name: string): string
    requires name in ClauseTexts
  {
    "\n" + Decimal(ordinal) + ". " + ClauseTexts[name]
  }

  /** The clauses `names` numbered 1, 2, ... in their order. */
  function NumberedClauses(names: seq<string>): (r: seq<string>)
    requires InLibrary(names)
    ensures |r| == |names|
  {
    seq(|names|, i requires 0 <= i < |names| => NumberedClause(i + 1, names[i]))
  }

  /** The parts joined in order. */
  function Concat(parts: seq<string>): string {
    if parts == [] then "" else Concat(parts[..|parts| - 1]) + parts[|parts| - 1]
  }

  /** Appending one more part to a prefix of `parts`. */
  lemma ConcatSnoc(parts: seq<string>, i: nat)
    requires i < |parts|
    ensures Concat(parts[..i + 1]) == Concat(parts[..i]) + parts[i]
  {
    assert parts[..i + 1][..i] == parts[..i];
  }

  /** Appending part `i` to the text built from the parts before it. */
  lemma AppendBlock(start: string, parts: seq<string>, i: nat)
    requires i < |parts|
    ensures start + Concat(parts[..i]) + parts[i] == start + Concat(parts[..i + 1])
  {
    ConcatSnoc(parts, i);
  }

  /** Rewriting the stored body of the i-th name with ordinal i + 1 gives the
      i-th numbered clause. */
  lemma RenderedBlock(data: NdaData, names: seq<string>, i: nat)
    requires InLibrary(names)
    requires i < |names|
    ensures ReplaceLeadingOrdinal(Clauses[names[i]](data), "\n" + Decimal(i + 1) + ". ")
         == NumberedClauses(names)[i]
  {
    StoredBodyRenumbered(names[i], data, "\n" + Decimal(i + 1) + ". ");
  }

  /** The preamble, the rendered clause blocks and the signature block,
      joined, with surrounding white space trimmed. */
  function Document(data: NdaData, blocks: seq<string>): string {
    Trim(Preamble(data) + Concat(blocks) + SignatureBlock(data))
  }

  /** The agreement for `data` and a clause selection: the document whose
      blocks are the selected and default clauses, numbered from 1 in
      canonical order. */
  function NdaText(data: NdaData, selectedClauseNames: seq<string>): string {
    CanonicalNamesInLibrary(SortedClauseNames(selectedClauseNames));
    Document(data, NumberedClauses(SortedClauseNames(selectedClauseNames)))
  }

  /** The assembler: merges the selection with the defaults, puts the names
      in canonical order and assembles the document from them. */
  method GenerateNdaText(data: NdaData, selectedClauseNames: seq<string>) returns (text: string)
    ensures text == NdaText(data, selectedClauseNames)
  {
    var clausesToInclude := Distinct(DefaultClauses + selectedClauseNames);
    var sortedClausesToInclude := Filter(CanonicalOrder, clausesToInclude);
    assert sortedClausesToInclude == SortedClauseNames(selectedClauseNames);
    CanonicalNamesInLibrary(sortedClausesToInclude);
    text := AssembleText(data, sortedClausesToInclude);
  }

  /** The text the assembler builds for the sorted names: the preamble, the
      clauses appended one by one, the signature block, trimmed. */
  method AssembleText(data: NdaData, names: seq<string>) returns (text: string)
    requires InLibrary(names)
    ensures text == Document(data, NumberedClauses(names))
  {
    var fullText := Preamble(data);
    fullText := AppendClauses(data, fullText, names);
    fullText := fullText + SignatureBlock(data);
    text := Trim(fullText);
  }

  /** The clause loop of the assembler: it walks `names` with a counter that
      starts at 1, rewrites each stored body's leading ordinal to the counter
      and appends the result to `fullText`. */
  method AppendClauses(data: NdaData, start: string, names: seq<string>) returns (fullText: string)
    requires InLibrary(names)
    ensures fullText == start + Concat(NumberedClauses(names))
  {
    fullText := start;
    ghost var numbered := NumberedClauses(names);
    var clauseCounter := 1;
    for i := 0 to |names|
      invariant clauseCounter == i + 1
      invariant fullText == start + Concat(numbered[..i])
    {
      var clauseName := names[i];
      if clauseName in Clauses {
        var clauseText := Clauses[clauseName](data);
        // `\n${clauseCounter++}. ` is built, and the counter bumped, before
        // the replace runs
        var replacement := "\n" + Decimal(clauseCounter) + ". ";
        clauseCounter := clauseCounter + 1;
        clauseText := ReplaceLeadingOrdinal(clauseText, replacement);
        RenderedBlock(data, names, i);
        AppendBlock(start, numbered, i);
        fullText := fullText + clauseText;
      }
    }
    assert numbered[..|names|] == numbered;
  }
}
