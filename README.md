# NDA clause assembler

A Dafny model of the clause library and assembler of the NDA generator,
`generateNdaText` in `src/lib/nda-template.ts`, with proofs of what it promises.

The assembler takes the party data and a list of clause names chosen by a
language model. It adds the six default clauses and drops duplicates, which is
`Array.from(new Set(...))`. It then filters the canonical order of the eight
library clauses down to the merged names. This sorts the names and drops every
name the library does not know. For each remaining name it takes the stored
clause body and rewrites the body's leading placeholder ordinal. The rewrite is
`replace(/^\s*\d+\.\s*/, ...)`, with a new line, a running counter from 1, a dot
and one space as the replacement. It appends each rewritten body to the
preamble, then appends the signature block and trims the result.

The model has three modules:

- `JsText` covers the JavaScript built-ins the assembler relies on:
  - the regular-expression class `\s`, which is also the set `trim` removes;
  - `String.prototype.trim`;
  - the decimal text of a counter;
  - the leading-ordinal rewrite. Its matcher is proved against a reference
    definition of the pattern: it finds the longest matching prefix, or
    reports that there is none.
- `NdaTemplate` holds the following:
  - the party data, the preamble and signature templates;
  - the clause library (`Clauses`, a map from name to body template);
  - the default clause list and the canonical order;
  - the specification functions `SortedClauseNames`, `NumberedClauses`,
    `Document` and `NdaText`;
  - the assembler itself, as imperative code proved against `NdaText`.
    `GenerateNdaText` merges and sorts the names. `AssembleText` joins the
    preamble, the clauses and the signature block and trims the result.
    `AppendClauses` is the counter loop. The three methods split the one
    function of the source so that each proof stays small; their
    preconditions hold at the point of the source where the code runs.
- `NdaProperties` holds the lemmas:
  - which clauses appear: the three leading defaults, Permitted Use exactly
    when selected, Intellectual Property exactly when selected, then the three
    closing defaults, so 6 to 8 clauses;
  - that they keep the canonical relative order;
  - that the selection acts as a set and unknown names are ignored;
  - that clause `i` is numbered `i + 1` and keeps its text byte for byte;
  - how the document is laid out;
  - where it names both parties.

Each clause starts on a new line: the replacement is
`` `\n${clauseCounter++}. ` ``, and the pattern's trailing `\s*` also removes
the two spaces stored after the placeholder dot, so one space follows the new
number.

## Model

| member | source | states |
|---|---|---|
| NdaTemplate.GenerateNdaText | src/lib/nda-template.ts:58-106 | the returned document is `NdaText(data, selection)`: the trimmed join of the preamble, the default and selected library clauses in canonical order numbered from 1, and the signature block |
| NdaTemplate.AssembleText | src/lib/nda-template.ts:62-105 | starting from the preamble, appending the clauses and the signature block, then trimming gives `Document` of the numbered clauses |
| NdaTemplate.AppendClauses | src/lib/nda-template.ts:94-102 | the loop with its counter from 1 appends exactly the numbered clauses, in order, to the text it started from; the loop invariant ties the counter to the number of clauses appended |
| NdaTemplate.Preamble | src/lib/nda-template.ts:9-22 | the preamble starts with the title `NON-DISCLOSURE AGREEMENT`; `PreambleStatesDate` states where it gives the effective date and `PreambleNamesParties` where it names the parties |
| NdaTemplate.SignatureBlock | src/lib/nda-template.ts:24-37 | the signature block opens with a new line and the `IN WITNESS WHEREOF` sentence; `SignatureNamesParties` states where it names the parties |
| NdaTemplate.Filter | src/lib/nda-template.ts:90-92 | the filtered list is no longer than the order and holds only names of the order; `FilterMembers` and `FilterKeepsOrder` state which names and in what order |
| NdaTemplate.Distinct | src/lib/nda-template.ts:74-76 | the merged list holds exactly the names of its input, each once |
| NdaTemplate.FilterMembers | src/lib/nda-template.ts:90-92 | the filtered canonical order holds exactly the canonical names that are in the merged list |
| NdaTemplate.SortedClauseNames | src/lib/nda-template.ts:65-92 | every name that is rendered is a canonical clause name |
| NdaTemplate.LibraryCoversCanonicalOrder | src/lib/nda-template.ts:39-88 | the library's names are exactly the canonical order's names, so the lookup `clauses[clauseName]` never fails for a sorted name |
| NdaTemplate.ClausesIgnorePartyData | src/lib/nda-template.ts:39-56 | every library body is the same text whatever the party data |
| NdaTemplate.StoredBodyShape | src/lib/nda-template.ts:39-56 | every stored body is a new line, a placeholder ordinal, a dot, two spaces, then the clause text |
| NdaTemplate.StoredPrefixShape | src/lib/nda-template.ts:40-55 | each placeholder prefix is a new line, one digit, a dot and two spaces |
| NdaTemplate.ClauseTextHeading | src/lib/nda-template.ts:40-55 | every clause text starts with its bold heading marker `*`, not with white space |
| NdaTemplate.StoredBodyRenumbered | src/lib/nda-template.ts:96-99 | the ordinal rewrite of any stored body is the replacement followed by the clause text, byte for byte |
| NdaTemplate.RenderedBlock | src/lib/nda-template.ts:94-100 | rewriting the i-th sorted clause with counter `i + 1` gives the i-th numbered clause |
| NdaTemplate.NumberedClauses | src/lib/nda-template.ts:94-102 | one numbered block per sorted name |
| NdaProperties.SortedClauseNamesCases | src/lib/nda-template.ts:65-92 | the clauses are the three leading defaults, Permitted Use exactly when selected, Intellectual Property exactly when selected, then the three closing defaults; every default appears; there are 6 to 8 |
| NdaProperties.SortedClauseNamesMembers | src/lib/nda-template.ts:65-92 | a name is rendered if and only if it is a canonical name that is a default or is selected |
| NdaProperties.SortedClauseNamesCanonicalOrder | src/lib/nda-template.ts:79-92 | of two rendered clauses, the earlier one comes earlier in the canonical order |
| NdaProperties.FilterKeepsOrder | src/lib/nda-template.ts:90-92 | filtering a list without duplicates keeps the relative order of the kept names |
| NdaProperties.FilterDependsOnlyOnMembership | src/lib/nda-template.ts:90-92 | the filter result depends only on which names of the order are in the keep list, not on the keep list's order, duplicates or other names |
| NdaProperties.CanonicalOrderHasNoDuplicates | src/lib/nda-template.ts:79-88 | no name occurs twice in the canonical order |
| NdaProperties.MergedMembership | src/lib/nda-template.ts:74-76 | a name is in the merged list if and only if it is a default or is selected |
| NdaProperties.CanonicalMembership | src/lib/nda-template.ts:65-92 | the merged list holds the six default canonical names always, Permitted Use exactly when it is selected, and Intellectual Property exactly when it is selected |
| NdaProperties.OptionalNotDefault | src/lib/nda-template.ts:65-72 | Permitted Use and Intellectual Property are not default clauses |
| NdaProperties.SelectionScenarios | src/lib/nda-template.ts:65-92 | no selection gives the six defaults; Intellectual Property adds it between Exclusions and Term; an unknown name beside Permitted Use gives the defaults plus Permitted Use after Exclusions |
| NdaProperties.SameKnownSelectionSameText | src/lib/nda-template.ts:74-92 | two selections that agree on the canonical names give the same clauses and the same document |
| NdaProperties.SelectionActsAsSet | src/lib/nda-template.ts:74-76 | the selection's order and repeated names make no difference to the document |
| NdaProperties.UnknownNameIgnored | src/lib/nda-template.ts:90-96 | adding a name the library does not know changes neither the clauses nor the document |
| NdaProperties.ClauseNumbering | src/lib/nda-template.ts:94-101 | the i-th clause of the document is a new line, the single digit `i + 1`, a dot, a space and the library's clause text: numbered from 1 without gap or repeat |
| NdaProperties.NdaTextLayout | src/lib/nda-template.ts:58-106 | the agreement for any party data and selection is the preamble, the default and selected clauses numbered from 1 in canonical order, and the signature block with its trailing white space trimmed |
| NdaProperties.DocumentLayout | src/lib/nda-template.ts:104-105 | the document is the preamble, the clause blocks and the signature block; the trim only removes the white space at the end of the signature block |
| NdaProperties.DocumentEnds | src/lib/nda-template.ts:9-37 | the joined text starts with the title's `N`, and the signature block is not all white space |
| NdaProperties.PreambleNamesParties | src/lib/nda-template.ts:9-22 | the preamble holds a `Disclosing Party:` line and a `Receiving Party:` line with the party names |
| NdaProperties.PreambleStatesDate | src/lib/nda-template.ts:11-14 | the preamble holds the effective date followed by `(the "Effective Date")` |
| NdaProperties.SignatureNamesParties | src/lib/nda-template.ts:24-37 | the trimmed signature block holds the disclosing party's `Name:` line; it ends with `Name: ` and the receiving party's name with its trailing white space trimmed, or with just `Name:` when that name is all white space |
| NdaProperties.PartiesNamed | src/lib/nda-template.ts:62-105 | whatever its clauses, the document starts with the title, gives the effective date followed by `(the "Effective Date")`, names both parties in the preamble, names the disclosing party on its signature line, and ends with the receiving party's signature line (just `Name:` when that name is all white space) |
| JsText.TrimStart | src/lib/nda-template.ts:105 | removes exactly the leading `\s` characters: the result is a suffix of the text, everything cut is white space, and it does not start with white space |
| JsText.TrimEnd | src/lib/nda-template.ts:105 | removes exactly the trailing `\s` characters: the result is a prefix of the text, everything cut is white space, and it does not end with white space |
| JsText.Trim | src/lib/nda-template.ts:105 | `.trim()` gives a text no longer than its input that neither starts nor ends with white space |
| JsText.Decimal | src/lib/nda-template.ts:99 | the text of `${clauseCounter}` is a non-empty run of digits without a leading zero, one digit long exactly for numbers below 10 |
| JsText.LeadingOrdinal | src/lib/nda-template.ts:99 | a match of `^\s*\d+\.\s*` covers at least a digit and the dot and never passes the end of the text |
| JsText.ReplaceLeadingOrdinal | src/lib/nda-template.ts:99 | the rewrite either leaves the text alone or gives the replacement followed by the text with a prefix of at least two characters cut |
| JsText.TrimPadded | src/lib/nda-template.ts:105 | `trim` gives back exactly a text that neither starts nor ends with white space, whatever white space surrounds it |
| JsText.TrimEndAppend | src/lib/nda-template.ts:105 | trimming the end of a join only touches the last part, when that part is not all white space |
| JsText.DecimalRoundTrip | src/lib/nda-template.ts:99 | reading the counter's decimal text back gives the counter |
| JsText.DecimalInjective | src/lib/nda-template.ts:99 | distinct counters give distinct texts |
| JsText.LeadingOrdinalSound | src/lib/nda-template.ts:99 | what the matcher finds is white space, one or more digits, a dot and white space |
| JsText.LeadingOrdinalLongest | src/lib/nda-template.ts:99 | every prefix matching the pattern is found, and none is longer than the match |
| JsText.ReplaceStoredPrefix | src/lib/nda-template.ts:99 | on a new line, one digit, a dot, two spaces and a body not starting with white space, the match is exactly those five characters and the body is kept |

## Left out

- The page and form around the assembler (`src/app/page.tsx`) are not part of this model: input collection, zod validation and display.
- The clause selector (`src/ai/flows/template-selection-tool.ts`) is not part of this model: the language-model call and its failure path. The selection is an arbitrary `seq<string>`.
- The effective date is the text `format(date, "MMMM d, yyyy")` produces, taken as an opaque string. The `date-fns` calendar formatting is not modelled.
- JavaScript's general regular-expression engine is not modelled. Only the one pattern `^\s*\d+\.\s*` is modelled. Its classes are disjoint, so the greedy match never backtracks.
- JsText.ReplaceLeadingOrdinal: the replacement string is inserted literally; `$` patterns in it are not interpreted. The assembler's replacements hold only a new line, digits, a dot and a space.
- NdaTemplate.AppendClauses and NdaTemplate.AssembleText require every name to be a library entry. In the source they run only on the filtered canonical names, and `LibraryCoversCanonicalOrder` shows all of those are entries. The loop's branch for a missing entry is kept, but it is never taken.
- NdaProperties.IndexOf: records only that the index holds the name, not that it is the first such index. A list without duplicates, such as the canonical order, has only one.
- JavaScript strings are sequences of UTF-16 code units; a Dafny `char` here is a Unicode scalar value. The library texts and templates are ASCII. Party names are only concatenated and trimmed, and `trim` removes characters of the Basic Multilingual Plane only. So for well-formed text the model gives the same characters as the source, read as UTF-16. A party name holding a lone surrogate cannot be represented.
