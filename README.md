# minha-nota: template renderer and settings form, modelled in Dafny

minha-nota is a client-side tool that keeps one settings object in browser storage
(recipient e-mail, company name, salary amount, subject and body templates, a list of
bank accounts and a list of PIX keys) and, on the main screen, shows an e-mail subject
and body with their placeholders resolved.

This project models the two pieces of logic in it:

- **The renderer** (`src/app/page.tsx`, module `Page` in `page.dfy`). The subject gets
  its first `{MES}`, first `{ANO}` and first `{EMPRESA}` replaced, in that order. The body
  gets its first `{MES}`, `{ANO}` and `{SALARIO}` replaced. Then, for every bank account at
  0-based position i, every `{CONTA_NN}` is replaced, with NN = i+1 padded to two digits.
  Every `{PIX_NN}` is then replaced the same way for the PIX entries. `Render` is the pure
  specification. `RenderFields` is the effect as page.tsx writes it, with the two
  `forEach` loops rewriting `bodyRaw`, and it is proved equal to `Render`.
  The lemmas about the renderer are in module `PageLemmas`.
- **The settings form** (`src/components/header.tsx`, module `Header` in `header.dfy`).
  It holds the zod schema as a predicate (`ValidSettings`) and as the set of reported
  field paths (`SchemaIssues`). It also holds the digits-only currency input
  (`KeepDigits`, `EnteredCents`), the defaulting applied when stored settings are loaded
  (`LoadDefaults`), and the empty entries added by the "Adicionar" buttons.

Supporting modules: `Strings` (`strings.dfy`) has literal search and replace with the
semantics of `String.prototype.replace`: first occurrence for a string pattern, every
non-overlapping occurrence for a global regular expression. It also has `padStart` and
`Join`, which the lemmas use. `Decimal` (`decimal.dfy`) has `toString` of a natural number
and `Number` of a digit string. `Wrappers` (`wrappers.dfy`) has `Option`, used for fields
that may be absent.

Inputs page.tsx and header.tsx take from their environment are parameters here:
- the current month index (`MonthIndex`, 0..11) and the year (a `nat`), instead of `new Date()`;
- `formatCurrency: int -> string`, for the `Intl.NumberFormat` pt-BR currency formatter, applied to the amount in cents;
- the stored settings, as `Option<StoredSettings>`, for `useReadLocalStorage` (`None` when nothing is stored).

Amounts are integer cents throughout.

## Model

| member | source | states |
|---|---|---|
| Strings.IndexOf | src/app/page.tsx:60-63 | a result exists iff the pattern occurs, and it is the leftmost match |
| Strings.ReplaceFirst | src/app/page.tsx:60-74 | `replace` with a string pattern; a text without the pattern is returned unchanged |
| Strings.TailMatches | src/app/page.tsx:60-63 | dropping the first character shifts every match position down by one |
| Strings.ReplaceAllAbsent | src/app/page.tsx:82-85 | `replace` with a global literal regex returns a text without the pattern unchanged |
| Strings.ReplaceAllSkip | src/app/page.tsx:82-85 | when no occurrence starts inside the prefix `a`, the global replace keeps `a` as it is and goes on in the rest |
| Strings.OccursAfter | src/app/page.tsx:82-85 | when no occurrence starts inside `a`, `a + s` holds the pattern only if `s` does |
| Strings.ClosedTokenSkip | src/app/page.tsx:77-92 | no occurrence of one `{...}` token starts inside a different `{...}` token placed before the rest |
| Strings.ReplaceFirstAt | src/app/page.tsx:60-63 | when the first occurrence follows `a`, the result is `a + rep + b`: later duplicates in `b` stay literal |
| Strings.ReplaceAllAt | src/app/page.tsx:82-85 | when the first occurrence follows `a`, it is replaced and scanning resumes in `b` (inserted text is not rescanned) |
| Strings.ReplaceAllHead | src/app/page.tsx:82-85 | a text opening with the pattern: that occurrence becomes the replacement and the scan resumes right after it |
| Strings.ReplaceAllJoin | src/app/page.tsx:82-85 | every occurrence of the pattern among pieces lacking its first character becomes the replacement; the pieces are kept |
| Strings.NoOccurInJoin | src/app/page.tsx:77-92 | a closed `{...}` token never occurs in brace-free text joined by a different closed token |
| Strings.ClosedPrefix | src/app/page.tsx:77-92 | of two different `}`-terminated tokens, neither is a prefix of the other |
| Strings.HeadFreeNotOccurs | src/app/page.tsx:60-98 | a pattern cannot occur in a text lacking its first character |
| Strings.PadStartShape | src/app/page.tsx:78 | `padStart`: length is max(width, length), the original is the suffix, the rest is fill; never truncates |
| Decimal.NatToDecimal | src/app/page.tsx:78 | `toString` of a number: non-empty, all digits, no leading zero for a positive number |
| Decimal.OneDigit | src/app/page.tsx:78 | a number below ten is written with exactly its one digit, so 0 is "0" |
| Decimal.DecimalRoundTrip | src/components/header.tsx:56 | `Number` of the decimal text of n is n |
| Decimal.LeadingZeros | src/components/header.tsx:56 | leading zeros do not change the value of a digit string |
| Decimal.ZerosValue | src/components/header.tsx:56 | a string of zeros has value 0 |
| Decimal.AppendDigit | src/components/header.tsx:56 | appending a digit multiplies the value by ten and adds the digit |
| Header.AccountIssuesExact | src/components/header.tsx:82-88 | an account field path is reported iff that entry's field is empty |
| Header.PixIssuesExact | src/components/header.tsx:89-95 | a PIX field path is reported iff that entry's field is empty |
| Header.AccountsAcceptValid | src/components/header.tsx:82-88 | an account list has no issue iff every entry has name, agency and number |
| Header.PixAcceptValid | src/components/header.tsx:89-95 | a PIX list has no issue iff every entry has key, owner and bank |
| Header.SchemaAcceptsValid | src/components/header.tsx:76-96 | the schema reports no issue iff e-mail, company, subject and body are non-empty, the amount is present and every entry has all fields |
| Header.EmptyListsAccepted | src/components/header.tsx:82-95 | empty account and PIX lists are valid: the lists have no minimum length |
| Header.AddBankAccountInvalid | src/components/header.tsx:338-342 | after "Adicionar", the form is invalid, with the new account's name, agency and number reported |
| Header.AddPixInvalid | src/components/header.tsx:433-437 | after "Adicionar", the form is invalid, with the new entry's key, owner and bank reported |
| Header.FilledAccountValid | src/components/header.tsx:84-88 | filling the added account makes a valid form valid again iff all three fields are non-empty |
| Header.FilledPixValid | src/components/header.tsx:91-93 | filling the added PIX entry makes a valid form valid again iff all three fields are non-empty |
| Header.KeepDigits | src/components/header.tsx:55 | only digits are kept, each taken from the input, and never more than the input |
| Header.KeepDigitsAppend | src/components/header.tsx:55 | the filter distributes over concatenation, so characters are kept or dropped one by one, in order |
| Header.KeepDigitsChar | src/components/header.tsx:55 | one character is kept iff it is a decimal digit |
| Header.KeepDigitsOfDigits | src/components/header.tsx:55 | a digit string passes unchanged |
| Header.NoDigitsIsZero | src/components/header.tsx:55-56 | an input without digits gives the empty string and 0 cents |
| Header.TypeCharacter | src/components/header.tsx:53-56 | typing a digit shifts the amount one place and adds the digit; any other key leaves it unchanged |
| Header.LeadingZerosIgnored | src/components/header.tsx:55-56 | leading zeros and non-digit decoration before the input do not change the cents |
| Header.EnteredCentsOfDecimal | src/components/header.tsx:55-56 | typing the decimal text of n enters n cents |
| Header.LoadDefaults | src/components/header.tsx:140-150 | absent strings become "", an absent or zero amount becomes 0, absent lists become []; present values are kept |
| Header.LoadAfterSave | src/components/header.tsx:142-154 | loading what a valid submit saved gives back the same form |
| Page.ApplyPassesStep | src/app/page.tsx:76-98 | one more entry adds one more all-occurrence pass over what the earlier passes left |
| Page.RenderFields | src/app/page.tsx:58-105 | the effect with its two loops computes exactly `Render`: recipient, subject, body |
| PageLemmas.TokenNumber | src/app/page.tsx:77-78 | the token is `{PREFIX_` + digits + `}`; the digits are exactly two when i+1 < 10 and otherwise exactly the digits of i+1, and read back as i+1 |
| PageLemmas.TokenShape | src/app/page.tsx:77-78 | a token starts with its only `{` and ends with its only `}` |
| PageLemmas.TokenInjective | src/app/page.tsx:77-78 | different positions of one list get different tokens |
| PageLemmas.FirstAccountToken | src/app/page.tsx:77-78 | position 0 gives `{CONTA_01}` |
| PageLemmas.TenthPixToken | src/app/page.tsx:89-90 | position 9 gives `{PIX_10}` |
| PageLemmas.HundredthAccountToken | src/app/page.tsx:77-78 | position 99 gives `{CONTA_100}`: the number is not cut |
| PageLemmas.ApplyPassesUnchanged | src/app/page.tsx:76-98 | passes whose tokens do not occur leave the body unchanged |
| PageLemmas.ApplyPassesBraceFree | src/app/page.tsx:76-98 | a body without `{` is left unchanged by every pass |
| PageLemmas.ApplyPassesEmpty | src/app/page.tsx:70-98 | the empty body stays empty through every pass |
| PageLemmas.OtherTokenAbsent | src/app/page.tsx:77-92 | a different token does not occur in brace-free text joined by one token |
| PageLemmas.PassesAtToken | src/app/page.tsx:76-98 | for a body of `{`-free pieces joined by entry k's token, when no later entry's token occurs in the result, every occurrence of the token becomes entry k's block and the pieces are kept |
| PageLemmas.MonthLabelsPlain | src/app/page.tsx:22-37 | the twelve month labels are non-empty, brace-free and distinct |
| PageLemmas.ReplaceFirstAfterPlain | src/app/page.tsx:60-63 | the first `{...}` placeholder after brace-free text is replaced and the rest is kept |
| PageLemmas.ThreeFirsts | src/app/page.tsx:60-74 | for `a + p1 + b + p2 + c + p3 + d` with `{`-opening placeholders and `{`-free `a`, `b`, `c`, `v1`, `v2`, the three first-occurrence replacements in order give `a + v1 + b + v2 + c + v3 + d`: one occurrence each, `d` kept |
| PageLemmas.SubjectShape | src/app/page.tsx:60-63 | a subject holding `{MES}`, `{ANO}` and `{EMPRESA}` in that order, each after `{`-free text, gets month, year and company (or fallback) at those three; the rest, with any later duplicate, is kept |
| PageLemmas.SubjectWithoutCompany | src/app/page.tsx:60-63 | a subject with `{MES}` and then `{ANO}`, each after `{`-free text, and no `{EMPRESA}` (such as "NF {MES}/{ANO}") gets month and year there; the absent company placeholder changes nothing |
| PageLemmas.BaseBodyShape | src/app/page.tsx:65-74 | a body holding `{MES}`, `{ANO}` and `{SALARIO}` in that order, each after `{`-free text, gets month, year and the formatted amount (0 when absent) at those three; the rest is kept |
| PageLemmas.SubjectExample | src/app/page.tsx:60-63 | "Recibo {MES}/{ANO} - {EMPRESA}", July 2024, "Acme" gives "Recibo Julho/2024 - Acme" |
| PageLemmas.CompanyFallbackSubject | src/app/page.tsx:60-63 | for a subject shaped as in SubjectShape, a missing or empty company puts "<SEU_NOME>" at the first `{EMPRESA}` |
| PageLemmas.MissingTemplates | src/app/page.tsx:60-104 | a missing subject or body gives ""; nothing stored gives three empty fields |
| PageLemmas.TokenFreeTemplates | src/app/page.tsx:60-98 | a subject holding none of `{MES}`, `{ANO}`, `{EMPRESA}`, and a body holding none of `{MES}`, `{ANO}`, `{SALARIO}` and no token of an existing account or PIX entry, come out exactly as written |
| PageLemmas.LiteralTemplates | src/app/page.tsx:60-98 | templates without `{` come out exactly as written, a case of TokenFreeTemplates |
| PageLemmas.RenderIdempotent | src/app/page.tsx:60-98 | rendering the resolved texts again, with the same lists, changes nothing once they hold none of the tokens TokenFreeTemplates names |
| PageLemmas.BaseBodyOfTokens | src/app/page.tsx:70-74 | a body spelled by any pieces of `{`-free literal text and list tokens is untouched by the `{MES}`/`{ANO}`/`{SALARIO}` replacements |
| PageLemmas.AccountNamedByToken | src/app/page.tsx:76-86 | the account passes over a lone account token, whose account has `{`-free agency and number and an institution name that is exactly one token of another list, leave agency, number and that token |
| PageLemmas.OtherListTokenAbsent | src/app/page.tsx:77-90 | brace-free text followed by one list's token holds no token of a list whose prefix starts with another letter |
| PageLemmas.PassesAfterLead | src/app/page.tsx:88-98 | the passes of a list over brace-free text and an entry's token, with a brace-free block, give the text and the block |
| PageLemmas.TokenInAccountName | src/app/page.tsx:76-98 | the account passes then the PIX passes over a lone account token, whose account has `{`-free agency and number and an institution name that is exactly one PIX token with a `{`-free block, give agency, number and the PIX block |
| PageLemmas.LaterPassSeesEarlierText | src/app/page.tsx:76-98 | for a body that is exactly one account token, whose account has `{`-free agency and number and an institution name that is exactly one PIX token with a `{`-free block, the PIX pass resolves the token the account pass brought in |
| PageLemmas.RefTokensDistinct | src/app/page.tsx:77-90 | two different list references, by list or by position, have different tokens |
| PageLemmas.PassHead | src/app/page.tsx:82-85 | one pass over a leading piece that is a list token or `{`-free literal text turns the piece into the block when it is the pass's token, keeps it otherwise, and goes on in the rest |
| PageLemmas.PassAtToken | src/app/page.tsx:82-85 | a pass over a text opening with its token puts the block there and goes on after it |
| PageLemmas.PassPastPiece | src/app/page.tsx:82-85 | a pass over a text opening with a `{`-free literal or another token keeps that piece and goes on after it |
| PageLemmas.PassOverPieces | src/app/page.tsx:82-85 | one pass over a body of `{`-free text and list tokens replaces exactly the pieces that are its token |
| PageLemmas.ListPiecesPlain | src/app/page.tsx:76-98 | with `{`-free blocks, the pieces left by a list's passes stay `{`-free |
| PageLemmas.LastPass | src/app/page.tsx:76-86 | the pass of the last entry completes what the passes of the earlier entries left |
| PageLemmas.ListPasses | src/app/page.tsx:76-98 | all passes of one list turn each token of an existing entry into its block and keep every other piece, tokens past the end and the other list's tokens included |
| PageLemmas.BothListsFilled | src/app/page.tsx:76-98 | the account passes followed by the PIX passes fill every piece in |
| PageLemmas.NoPlaceholderInPieces | src/app/page.tsx:70-74 | `{MES}`, `{ANO}` and `{SALARIO}` do not occur in a body of `{`-free text and list tokens |
| PageLemmas.PiecesResolved | src/app/page.tsx:76-98 | the account passes and then the PIX passes over `{`-free pieces, with `{`-free blocks, give the pieces filled in |
| PageLemmas.FullBodyResolved | src/app/page.tsx:65-98 | a body of `{`-free text with the first `{MES}`, `{ANO}` and `{SALARIO}`, followed by any `{`-free pieces of text and list tokens, resolves to the text with month, year and amount in place followed by the pieces filled in, when the formatted amount and the blocks hold no `{` |
| PageLemmas.FullBodyShape | src/app/page.tsx:65-98 | `{`-free a, b and c with the base placeholders, followed by a `{`-free gap, an existing account's token, the gap and an existing PIX entry's token, give month, year, amount and the two blocks in place, when the formatted amount and every block hold no `{` |
| PageLemmas.ExampleResolved | src/app/page.tsx:65-98 | "Referente a {MES}/{ANO}: {SALARIO} {CONTA_01} {PIX_01}" in any month and year gives the month label, the year, the amount and the first account's and first PIX entry's blocks in place, when the formatted amount and every block hold no `{` |
| PageLemmas.FullBodyExample | src/app/page.tsx:65-98 | "Referente a {MES}/{ANO}: {SALARIO} {CONTA_01} {PIX_01}" in July 2024 gives "Referente a Julho/2024: ", the amount, and the first account's and first PIX entry's blocks, when the formatted amount and every block hold no `{` |
| PageLemmas.BodyResolved | src/app/page.tsx:70-98 | for any body of `{`-free literal text and `{CONTA_NN}`/`{PIX_NN}` tokens, with `{`-free blocks, the resolved body is the same sequence with each existing entry's token replaced by its block and every other token kept |
| PageLemmas.FirstPixToken | src/app/page.tsx:89-90 | position 0 gives `{PIX_01}` |
| PageLemmas.SecondAccountToken | src/app/page.tsx:77-78 | position 1 gives `{CONTA_02}` |
| PageLemmas.BothListsShape | src/app/page.tsx:76-98 | the token of an existing account, then the token of an existing PIX entry (any position), then an account token past the end, resolve to the two blocks and the literal token, when every block holds no `{` |
| PageLemmas.BothListsExample | src/app/page.tsx:76-98 | "{CONTA_01}{PIX_01}{CONTA_02}" with one account gives the account's block, the first PIX block and "{CONTA_02}", when every block holds no `{` |
| PageLemmas.Year2024 | src/app/page.tsx:20 | 2024 is written "2024" |

## Left out

- Strings.ReplaceFirst: inserts the replacement literally. JavaScript's `replace` expands `$$`, `$&`, `` $` `` and `$'` in the replacement string. The model agrees with page.tsx only for values without those sequences. `"R$ "` from the currency formatter is unaffected.
- Strings.ReplaceAll: inserts the replacement literally, for the same reason as ReplaceFirst. It is a left-to-right scan; its properties are the lemmas ReplaceAllAbsent, ReplaceAllSkip and ReplaceAllAt. The pattern `{CONTA_NN}` or `{PIX_NN}` is not a valid quantifier, so the regular expression matches its text literally. The `m` flag has no effect without `^` or `$`.
- PageLemmas.BodyResolved: covers bodies whose literal text has no `{` and whose entries' blocks have no `{`. A `{` in a stored field can form a token that a later pass resolves, as LaterPassSeesEarlierText shows, so no piece-by-piece statement holds there.
- PageLemmas.PiecesResolved: requires `{`-free literal pieces and blocks, for the same reason as BodyResolved.
- PageLemmas.ListPasses: requires `{`-free literal pieces and blocks, for the same reason as BodyResolved.
- PageLemmas.PassOverPieces: requires `{`-free literal pieces, as BodyResolved does.
- PageLemmas.PassesAtToken: covers a body of `{`-free pieces joined by one token, and only when no later entry's token occurs in the result. BodyResolved is the general statement.
- PageLemmas.ThreeFirsts: covers texts where all three placeholders occur, in order, each after `{`-free text. A missing or reordered placeholder is not stated.
- PageLemmas.SubjectShape: covers subjects with `{MES}`, `{ANO}` and `{EMPRESA}` in that order after `{`-free text, as ThreeFirsts. SubjectWithoutCompany covers `{MES}` then `{ANO}` with no company placeholder, and TokenFreeTemplates covers subjects holding none of the three. Other orders and other missing placeholders are not stated.
- PageLemmas.SubjectWithoutCompany: covers `{MES}` before `{ANO}` after `{`-free text only.
- PageLemmas.BaseBodyShape: covers bodies with `{MES}`, `{ANO}` and `{SALARIO}` in that order after `{`-free text, as SubjectShape; FullBodyResolved adds the list passes over the rest.
- PageLemmas.FullBodyResolved: requires the formatted amount to hold no `{`, since the list passes scan it too; a currency formatter does not produce one.
- PageLemmas.LaterPassSeesEarlierText: a single witness that a `{` in a stored field can form a token a later pass resolves, which is why BodyResolved requires `{`-free blocks; it does not describe every body whose blocks hold tokens.
- PageLemmas.AccountNamedByToken: requires `{`-free agency and number; a `{` there can form a token a later pass resolves, the reason given for BodyResolved.
- PageLemmas.TokenInAccountName: requires `{`-free agency, number and PIX block, for the reason given for BodyResolved.
- PageLemmas.PassHead: requires a leading literal piece to be `{`-free, as PassPastPiece does, for the reason given for BodyResolved.
- PageLemmas.FullBodyShape: requires `{`-free a, b, c, gap, formatted amount and blocks, for the reasons given for FullBodyResolved and BodyResolved.
- PageLemmas.ExampleResolved: requires a `{`-free formatted amount and `{`-free blocks, for the reasons given for FullBodyResolved and BodyResolved.
- PageLemmas.FullBodyExample: requires a `{`-free formatted amount and `{`-free blocks, as ExampleResolved does.
- PageLemmas.BothListsShape: requires `{`-free blocks; an account named "{PIX_01}", say, would be rewritten by the PIX pass, the reason given for BodyResolved.
- PageLemmas.BothListsExample: requires `{`-free blocks, as BothListsShape does.
- PageLemmas.CompanyFallbackSubject: covers subjects of the SubjectShape form only.
- Currency formatting (`Intl.NumberFormat` pt-BR), and hence the `R$ 1.234,50` example, is a locale facility outside minha-nota; it is the parameter `formatCurrency`.
- The amount is integer cents. `Number(digits) / 100` in floating point, its precision loss on very long digit strings, and NaN amounts are not modelled.
- Date and time: `new Date()` is replaced by the month index and year parameters. The year is a `nat`, so years before year 0 are not covered.
- Browser storage (`useLocalStorage`, `useReadLocalStorage`), the JSON serialisation, and the `Object.keys(settings || {})` guard are not modelled. The guard is always true. `Header.Save` stands for what a submit writes.
- List entries are complete records. Stored entries with missing fields would print as "undefined" in a template literal, and that case is not modelled.
- `src/components/copy-button.tsx` is not part of this model. Its clipboard write and timer are an asynchronous foreign API.
- All UI plumbing is not modelled: sheets, accordions, form fields, the remove buttons, toasts, `console.log`, the disabled submit button, and the display text of the currency input. The react-hook-form field ids and zod's message text are also left out. The schema issues keep only the field path.
