/**
 * The main screen's renderer: from the stored settings, the current month and
 * the current year it computes the recipient, the resolved subject and the
 * resolved body shown in the read-only form.
 */
module Page {
  import opened Wrappers
  import opened Strings
  import opened Decimal
  import opened Header

  const Months: seq<string> := [
    "Janeiro", "Fevereiro", "Março", "Abril", "Maio", "Junho",
    "Julho", "Agosto", "Setembro", "Outubro", "Novembro", "Dezembro"
  ]

  /** What `Date.getMonth()` returns. */
  type MonthIndex = m: int | 0 <= m < 12

  function MonthLabel(m: MonthIndex): string
  {
    Months[m]
  }

  const Fallback := "<SEU_NOME>"
  const AccountPrefix := "CONTA"
  const PixPrefix := "PIX"

  /** `settings?.company || "<SEU_NOME>"`. */
  function CompanyOrFallback(company: Option<string>): string
  {
    if company.Some? && company.value != "" then company.value else Fallback
  }

  /** The placeholder for the list entry at 0-based `index`: `{PREFIX_NN}`, NN the 1-based position padded to two digits. */
  function Token(prefix: string, index: nat): string
  {
    "{" + prefix + "_" + PadStart(NatToDecimal(index + 1), 2, '0') + "}"
  }

  /** The three-line block for a bank account: agency, number, institution. */
  function AccountBlock(a: BankAccount): string
  {
    a.agency + "\n" + a.number + "\n" + a.name
  }

  /** The three-line block for a PIX entry: key, institution, owner. */
  function PixBlock(p: Pix): string
  {
    p.key + "\n" + p.bank + "\n" + p.owner
  }

  /**
   * The `forEach` over a list: entry `i` replaces every occurrence of its token
   * in the text left by the passes of entries `0..i-1`.
   */
  function ApplyPasses<T>(body: string, entries: seq<T>, prefix: string, block: T -> string): string
    decreases |entries|
  {
    if entries == [] then body
    else
      var i := |entries| - 1;
      ReplaceAll(ApplyPasses(body, entries[..i], prefix, block), Token(prefix, i), block(entries[i]))
  }

  /** One more entry adds one more pass, on the text the earlier passes left. */
  lemma ApplyPassesStep<T>(body: string, entries: seq<T>, i: nat, prefix: string, block: T -> string)
    requires i < |entries|
    ensures ApplyPasses(body, entries[..i + 1], prefix, block)
         == ReplaceAll(ApplyPasses(body, entries[..i], prefix, block), Token(prefix, i), block(entries[i]))
  {
    assert entries[..i + 1][..i] == entries[..i];
  }

  /** The subject: first `{MES}`, then first `{ANO}`, then first `{EMPRESA}`; a missing template gives "". */
  function ResolveSubject(s: StoredSettings, month: MonthIndex, year: nat): string
  {
    match s.subject
    case None => ""
    case Some(t) =>
      ReplaceFirst(ReplaceFirst(ReplaceFirst(t, "{MES}", MonthLabel(month)), "{ANO}", NatToDecimal(year)),
                   "{EMPRESA}", CompanyOrFallback(s.company))
  }

  /** The body before the list passes: first `{MES}`, first `{ANO}`, first `{SALARIO}`; a missing template gives "". */
  function BaseBody(s: StoredSettings, month: MonthIndex, year: nat, formatCurrency: int -> string): string
  {
    match s.body
    case None => ""
    case Some(t) =>
      ReplaceFirst(ReplaceFirst(ReplaceFirst(t, "{MES}", MonthLabel(month)), "{ANO}", NatToDecimal(year)),
                   "{SALARIO}", formatCurrency(s.amount.GetOr(0)))
  }

  /** The body: the base body, then every bank-account pass, then every PIX pass. */
  function ResolveBody(s: StoredSettings, month: MonthIndex, year: nat, formatCurrency: int -> string): string
  {
    var afterAccounts := ApplyPasses(BaseBody(s, month, year, formatCurrency), s.bankAccounts.GetOr([]), AccountPrefix, AccountBlock);
    ApplyPasses(afterAccounts, s.pix.GetOr([]), PixPrefix, PixBlock)
  }

  /** The values the main form shows. */
  datatype Resolved = Resolved(email: string, subject: string, body: string)

  const NothingStored := StoredSettings(None, None, None, None, None, None, None)

  /** The renderer; `settings` is `None` when nothing has been stored yet. */
  function Render(settings: Option<StoredSettings>, month: MonthIndex, year: nat, formatCurrency: int -> string): Resolved
  {
    var s := settings.GetOr(NothingStored);
    Resolved(s.email.GetOr(""), ResolveSubject(s, month, year), ResolveBody(s, month, year, formatCurrency))
  }

  /** The effect as page.tsx runs it: the two `forEach` loops rewrite `bodyRaw` in place. */
  method RenderFields(settings: Option<StoredSettings>, month: MonthIndex, year: nat, formatCurrency: int -> string)
    returns (r: Resolved)
    ensures r == Render(settings, month, year, formatCurrency)
  {
    var s := settings.GetOr(NothingStored);
    var subject := ResolveSubject(s, month, year);
    var base := BaseBody(s, month, year, formatCurrency);
    var bodyRaw := base;

    var accounts := s.bankAccounts.GetOr([]);
    var i := 0;
    while i < |accounts|
      invariant 0 <= i <= |accounts|
      invariant bodyRaw == ApplyPasses(base, accounts[..i], AccountPrefix, AccountBlock)
    {
      ApplyPassesStep(base, accounts, i, AccountPrefix, AccountBlock);
      bodyRaw := ReplaceAll(bodyRaw, Token(AccountPrefix, i), AccountBlock(accounts[i]));
      i := i + 1;
    }
    assert accounts[..|accounts|] == accounts;
    ghost var afterAccounts := bodyRaw;

    var pix := s.pix.GetOr([]);
    var k := 0;
    while k < |pix|
      invariant 0 <= k <= |pix|
      invariant bodyRaw == ApplyPasses(afterAccounts, pix[..k], PixPrefix, PixBlock)
    {
      ApplyPassesStep(afterAccounts, pix, k, PixPrefix, PixBlock);
      bodyRaw := ReplaceAll(bodyRaw, Token(PixPrefix, k), PixBlock(pix[k]));
      k := k + 1;
    }
    assert pix[..|pix|] == pix;

    r := Resolved(s.email.GetOr(""), subject, bodyRaw);
  }
}

module PageLemmas {
  import opened Wrappers
  import opened Strings
  import opened Decimal
  import opened Header
  import opened Page

  // ---------------------------------------------------------------------------
  // Tokens

  predicate PlainPrefix(prefix: string)
  {
    '{' !in prefix && '}' !in prefix
  }

  /** The padded number: the 1-based position, with a leading zero below 10 and never cut. */
  lemma {:induction false} TokenNumber(prefix: string, index: nat)
    ensures var t := Token(prefix, index);
      var digits := t[|prefix| + 2..|t| - 1];
      && t == "{" + prefix + "_" + digits + "}"
      && AllDigits(digits) && |digits| >= 2 && |digits| >= |NatToDecimal(index + 1)|
      && |digits| == (if |NatToDecimal(index + 1)| >= 2 then |NatToDecimal(index + 1)| else 2)
      && DecimalValue(digits) == index + 1
  {
    var n := NatToDecimal(index + 1);
    var digits := PadStart(n, 2, '0');
    PadStartShape(n, 2, '0');
    var t := Token(prefix, index);
    assert t == "{" + prefix + "_" + digits + "}";
    assert t[|prefix| + 2..|t| - 1] == digits;
    var zeros := digits[..|digits| - |n|];
    assert digits == zeros + n;
    LeadingZeros(zeros, n);
    DecimalRoundTrip(index + 1);
  }

  /** A token starts with its only `{` and ends with its only `}`. */
  lemma TokenShape(prefix: string, index: nat)
    requires PlainPrefix(prefix)
    ensures var t := Token(prefix, index);
      && Closed(t) && t[0] == '{' && '{' !in t[1..]
      && |t| > 1 && (|prefix| > 0 ==> t[1] == prefix[0])
  {
    var t := Token(prefix, index);
    TokenNumber(prefix, index);
    var digits := t[|prefix| + 2..|t| - 1];
    assert t[..|t| - 1] == "{" + prefix + "_" + digits;
    assert t[1..] == prefix + "_" + digits + "}";
    assert '{' !in digits && '}' !in digits by {
      forall k | 0 <= k < |digits| ensures digits[k] != '{' && digits[k] != '}' {
        assert IsDigit(digits[k]);
      }
    }
  }

  /** Different positions of one list get different tokens. */
  lemma TokenInjective(prefix: string, i: nat, j: nat)
    requires Token(prefix, i) == Token(prefix, j)
    ensures i == j
  {
    TokenNumber(prefix, i);
    TokenNumber(prefix, j);
  }

  /** The first account's token. */
  lemma FirstAccountToken()
    ensures Token(AccountPrefix, 0) == "{CONTA_01}"
  {
    assert DigitChar(1) == '1';
    assert NatToDecimal(1) == "1";
    assert PadStart("1", 2, '0') == "01";
  }

  /** The tenth PIX entry's token: two digits, no padding. */
  lemma TenthPixToken()
    ensures Token(PixPrefix, 9) == "{PIX_10}"
  {
    assert DigitChar(1) == '1' && DigitChar(0) == '0';
    assert NatToDecimal(10) == NatToDecimal(1) + [DigitChar(0)] == "10";
    assert PadStart("10", 2, '0') == "10";
  }

  /** The hundredth account's token: the number is not cut to two digits. */
  lemma HundredthAccountToken()
    ensures Token(AccountPrefix, 99) == "{CONTA_100}"
  {
    assert DigitChar(1) == '1' && DigitChar(0) == '0';
    assert NatToDecimal(10) == NatToDecimal(1) + [DigitChar(0)] == "10";
    assert NatToDecimal(100) == NatToDecimal(10) + [DigitChar(0)] == "100";
    assert PadStart("100", 2, '0') == "100";
  }

  // ---------------------------------------------------------------------------
  // Passes

  /** Passes whose tokens do not occur leave the text unchanged. */
  lemma {:induction false} ApplyPassesUnchanged<T>(s: string, entries: seq<T>, prefix: string, block: T -> string)
    requires forall j: nat :: j < |entries| ==> !Occurs(s, Token(prefix, j))
    ensures ApplyPasses(s, entries, prefix, block) == s
    decreases |entries|
  {
    if entries != [] {
      var i := |entries| - 1;
      ApplyPassesUnchanged(s, entries[..i], prefix, block);
      ReplaceAllAbsent(s, Token(prefix, i), block(entries[i]));
    }
  }

  /** Text without `{` holds no token, so every pass leaves it unchanged. */
  lemma ApplyPassesBraceFree<T>(s: string, entries: seq<T>, prefix: string, block: T -> string)
    requires '{' !in s && PlainPrefix(prefix)
    ensures ApplyPasses(s, entries, prefix, block) == s
  {
    forall j: nat | j < |entries| ensures !Occurs(s, Token(prefix, j)) {
      TokenShape(prefix, j);
      HeadFreeNotOccurs(s, Token(prefix, j));
    }
    ApplyPassesUnchanged(s, entries, prefix, block);
  }

  /** Text without `{` holds no token of a list. */
  lemma BraceFreeHasNoToken(s: string, prefix: string)
    requires '{' !in s && PlainPrefix(prefix)
    ensures forall n: nat :: !Occurs(s, Token(prefix, n))
  {
    forall n: nat ensures !Occurs(s, Token(prefix, n)) {
      TokenShape(prefix, n);
      HeadFreeNotOccurs(s, Token(prefix, n));
    }
  }

  /** The empty text stays empty through every pass. */
  lemma ApplyPassesEmpty<T>(entries: seq<T>, prefix: string, block: T -> string)
    requires PlainPrefix(prefix)
    ensures ApplyPasses("", entries, prefix, block) == ""
  {
    ApplyPassesBraceFree("", entries, prefix, block);
  }

  /** The token of entry `j` does not occur in literal text joined by the token of a different entry `k`. */
  lemma OtherTokenAbsent(parts: seq<string>, prefix: string, k: nat, otherPrefix: string, j: nat)
    requires AllFree(parts, '{') && PlainPrefix(prefix) && PlainPrefix(otherPrefix)
    requires Token(otherPrefix, j) != Token(prefix, k)
    ensures !Occurs(Join(parts, Token(prefix, k)), Token(otherPrefix, j))
  {
    TokenShape(prefix, k);
    TokenShape(otherPrefix, j);
    NoOccurInJoin(parts, Token(prefix, k), Token(otherPrefix, j));
  }

  /**
   * Every occurrence of entry k's token, between literal pieces without `{`,
   * comes out as entry k's block, provided the result holds no token of a later entry.
   */
  lemma {:induction false} PassesAtToken<T>(parts: seq<string>, entries: seq<T>, prefix: string, block: T -> string, k: nat)
    requires AllFree(parts, '{') && PlainPrefix(prefix)
    requires k < |entries|
    requires forall n: nat :: k < n < |entries| ==> !Occurs(Join(parts, block(entries[k])), Token(prefix, n))
    ensures ApplyPasses(Join(parts, Token(prefix, k)), entries, prefix, block) == Join(parts, block(entries[k]))
    decreases |entries|
  {
    var n := |entries| - 1;
    var s := Join(parts, Token(prefix, k));
    if n == k {
      forall j: nat | j < |entries[..n]| ensures !Occurs(s, Token(prefix, j)) {
        if Token(prefix, j) == Token(prefix, k) {
          TokenInjective(prefix, j, k);
        }
        OtherTokenAbsent(parts, prefix, k, prefix, j);
      }
      ApplyPassesUnchanged(s, entries[..n], prefix, block);
      TokenShape(prefix, k);
      ReplaceAllJoin(parts, Token(prefix, k), block(entries[k]));
    } else {
      assert entries[..n][k] == entries[k];
      PassesAtToken(parts, entries[..n], prefix, block, k);
      ReplaceAllAbsent(Join(parts, block(entries[k])), Token(prefix, n), block(entries[n]));
    }
  }

  // ---------------------------------------------------------------------------
  // Rendering

  /** Every month label is a non-empty word without braces, and the twelve are distinct. */
  lemma MonthLabelsPlain()
    ensures forall m: MonthIndex :: MonthLabel(m) != "" && '{' !in MonthLabel(m) && '}' !in MonthLabel(m)
    ensures forall m: MonthIndex, n: MonthIndex :: m != n ==> MonthLabel(m) != MonthLabel(n)
  {
  }

  /** A text of digits holds no brace. */
  lemma DigitsBraceFree(s: string)
    requires AllDigits(s)
    ensures '{' !in s && '}' !in s
  {
    forall k | 0 <= k < |s| ensures s[k] != '{' && s[k] != '}' {
      assert IsDigit(s[k]);
    }
  }

  /** Replacing the first `pat` after a brace-free prefix `a`, where `pat` starts with `{`. */
  lemma ReplaceFirstAfterPlain(a: string, pat: string, rep: string, b: string)
    requires |pat| > 0 && pat[0] == '{' && '{' !in a
    ensures ReplaceFirst(a + pat + b, pat, rep) == a + rep + b
  {
    HeadFreePrefix(a, pat + b, pat);
    assert a + (pat + b) == a + pat + b;
    ReplaceFirstAt(a, pat, rep, b);
  }

  /** The regroupings `ThreeFirsts` steps through, stated apart so that its proof stays cheap on every solver seed. */
  lemma Regroup(a: string, p1: string, v1: string, b: string, p2: string, v2: string,
                c: string, p3: string, v3: string, d: string)
    ensures a + p1 + b + p2 + c + p3 + d == a + p1 + (b + p2 + c + p3 + d)
    ensures a + v1 + (b + p2 + c + p3 + d) == (a + v1 + b) + p2 + (c + p3 + d)
    ensures (a + v1 + b) + v2 + (c + p3 + d) == (a + v1 + b + v2 + c) + p3 + d
    ensures (a + v1 + b + v2 + c) + v3 + d == a + v1 + b + v2 + c + v3 + d
  {
  }

  /** Three first-occurrence replacements in a row, each placeholder reached after brace-free text. */
  lemma ThreeFirsts(p1: string, v1: string, p2: string, v2: string, p3: string, v3: string,
                    a: string, b: string, c: string, d: string)
    requires |p1| > 0 && |p2| > 0 && |p3| > 0 && p1[0] == '{' && p2[0] == '{' && p3[0] == '{'
    requires '{' !in a && '{' !in b && '{' !in c && '{' !in v1 && '{' !in v2
    ensures ReplaceFirst(ReplaceFirst(ReplaceFirst(a + p1 + b + p2 + c + p3 + d, p1, v1), p2, v2), p3, v3)
         == a + v1 + b + v2 + c + v3 + d
  {
    Regroup(a, p1, v1, b, p2, v2, c, p3, v3, d);
    ReplaceFirstAfterPlain(a, p1, v1, b + p2 + c + p3 + d);
    ReplaceFirstAfterPlain(a + v1 + b, p2, v2, c + p3 + d);
    ReplaceFirstAfterPlain(a + v1 + b + v2 + c, p3, v3, d);
  }

  /**
   * A subject whose first `{MES}`, `{ANO}` and `{EMPRESA}` follow brace-free text
   * resolves each of those three, and only those: the rest `d`, with any later
   * duplicate of a placeholder, is kept as it is.
   */
  lemma SubjectShape(s: StoredSettings, month: MonthIndex, year: nat, a: string, b: string, c: string, d: string)
    requires '{' !in a && '{' !in b && '{' !in c
    requires s.subject == Some(a + "{MES}" + b + "{ANO}" + c + "{EMPRESA}" + d)
    ensures ResolveSubject(s, month, year)
         == a + MonthLabel(month) + b + NatToDecimal(year) + c + CompanyOrFallback(s.company) + d
  {
    MonthLabelsPlain();
    DigitsBraceFree(NatToDecimal(year));
    ThreeFirsts("{MES}", MonthLabel(month), "{ANO}", NatToDecimal(year), "{EMPRESA}", CompanyOrFallback(s.company),
                a, b, c, d);
  }

  /** A subject with `{MES}` and then `{ANO}` after brace-free text, and no company placeholder. */
  lemma SubjectWithoutCompany(s: StoredSettings, month: MonthIndex, year: nat, a: string, b: string, c: string)
    requires '{' !in a && '{' !in b && '{' !in c
    requires s.subject == Some(a + "{MES}" + b + "{ANO}" + c)
    ensures ResolveSubject(s, month, year) == a + MonthLabel(month) + b + NatToDecimal(year) + c
  {
    var m, y := MonthLabel(month), NatToDecimal(year);
    MonthLabelsPlain();
    DigitsBraceFree(y);
    assert a + "{MES}" + b + "{ANO}" + c == a + "{MES}" + (b + "{ANO}" + c);
    ReplaceFirstAfterPlain(a, "{MES}", m, b + "{ANO}" + c);
    assert a + m + (b + "{ANO}" + c) == (a + m + b) + "{ANO}" + c;
    ReplaceFirstAfterPlain(a + m + b, "{ANO}", y, c);
    HeadFreeNotOccurs(a + m + b + y + c, "{EMPRESA}");
  }

  /** The body's first `{MES}`, `{ANO}` and `{SALARIO}` after brace-free text are resolved; `d` is kept. */
  lemma BaseBodyShape(s: StoredSettings, month: MonthIndex, year: nat, formatCurrency: int -> string,
                      a: string, b: string, c: string, d: string)
    requires '{' !in a && '{' !in b && '{' !in c
    requires s.body == Some(a + "{MES}" + b + "{ANO}" + c + "{SALARIO}" + d)
    ensures BaseBody(s, month, year, formatCurrency)
         == a + MonthLabel(month) + b + NatToDecimal(year) + c + formatCurrency(s.amount.GetOr(0)) + d
  {
    MonthLabelsPlain();
    DigitsBraceFree(NatToDecimal(year));
    ThreeFirsts("{MES}", MonthLabel(month), "{ANO}", NatToDecimal(year), "{SALARIO}", formatCurrency(s.amount.GetOr(0)),
                a, b, c, d);
  }

  /** The year 2024 written out. */
  lemma Year2024(year: nat)
    requires year == 2024
    ensures NatToDecimal(year) == "2024"
  {
    assert NatToDecimal(2) == "2";
    assert NatToDecimal(20) == "20";
    assert NatToDecimal(202) == "202";
    assert NatToDecimal(year) == NatToDecimal(202) + [DigitChar(4)];
  }

  /** July 2024 written out. */
  lemma July2024(month: MonthIndex, year: nat)
    requires month == 6 && year == 2024
    ensures "Recibo " + MonthLabel(month) + "/" + NatToDecimal(year) + " - " + "Acme" + "" == "Recibo Julho/2024 - Acme"
  {
    Year2024(year);
    assert MonthLabel(month) == "Julho";
  }

  /** The worked example: "Recibo {MES}/{ANO} - {EMPRESA}" in July 2024 for "Acme". */
  lemma SubjectExample(s: StoredSettings, month: MonthIndex, year: nat)
    requires s.subject == Some("Recibo {MES}/{ANO} - {EMPRESA}") && s.company == Some("Acme")
    requires month == 6 && year == 2024
    ensures ResolveSubject(s, month, year) == "Recibo Julho/2024 - Acme"
  {
    assert s.subject.value == "Recibo " + "{MES}" + "/" + "{ANO}" + " - " + "{EMPRESA}" + "";
    SubjectShape(s, month, year, "Recibo ", "/", " - ", "");
    July2024(month, year);
  }

  /**
   * An empty or missing company name puts "<SEU_NOME>" in place of the first `{EMPRESA}`
   * of a subject shaped as in `SubjectShape`.
   */
  lemma CompanyFallbackSubject(s: StoredSettings, month: MonthIndex, year: nat, a: string, b: string, c: string, d: string)
    requires '{' !in a && '{' !in b && '{' !in c
    requires s.subject == Some(a + "{MES}" + b + "{ANO}" + c + "{EMPRESA}" + d)
    requires s.company.None? || s.company == Some("")
    ensures ResolveSubject(s, month, year) == a + MonthLabel(month) + b + NatToDecimal(year) + c + "<SEU_NOME>" + d
  {
    SubjectShape(s, month, year, a, b, c, d);
  }

  /** Missing templates render as empty texts, whatever the lists hold; nothing stored renders three empty texts. */
  lemma MissingTemplates(s: StoredSettings, month: MonthIndex, year: nat, formatCurrency: int -> string)
    ensures s.subject.None? ==> ResolveSubject(s, month, year) == ""
    ensures s.body.None? ==> ResolveBody(s, month, year, formatCurrency) == ""
    ensures Render(None, month, year, formatCurrency) == Resolved("", "", "")
  {
    ApplyPassesEmpty(s.bankAccounts.GetOr([]), AccountPrefix, AccountBlock);
    ApplyPassesEmpty(s.pix.GetOr([]), PixPrefix, PixBlock);
    ApplyPassesEmpty([], AccountPrefix, AccountBlock);
    ApplyPassesEmpty([], PixPrefix, PixBlock);
  }

  /** The subject template holds none of the three subject placeholders. */
  predicate NoSubjectToken(t: string)
  {
    !Occurs(t, "{MES}") && !Occurs(t, "{ANO}") && !Occurs(t, "{EMPRESA}")
  }

  /** The body template holds no base placeholder and no token of an existing list entry. */
  predicate NoBodyToken(t: string, accounts: seq<BankAccount>, pix: seq<Pix>)
  {
    && !Occurs(t, "{MES}") && !Occurs(t, "{ANO}") && !Occurs(t, "{SALARIO}")
    && (forall j: nat :: j < |accounts| ==> !Occurs(t, Token(AccountPrefix, j)))
    && (forall j: nat :: j < |pix| ==> !Occurs(t, Token(PixPrefix, j)))
  }

  /** Templates holding none of the tokens the renderer replaces come out exactly as written. */
  lemma TokenFreeTemplates(s: StoredSettings, month: MonthIndex, year: nat, formatCurrency: int -> string)
    ensures s.subject.Some? && NoSubjectToken(s.subject.value) ==> ResolveSubject(s, month, year) == s.subject.value
    ensures s.body.Some? && NoBodyToken(s.body.value, s.bankAccounts.GetOr([]), s.pix.GetOr([]))
        ==> ResolveBody(s, month, year, formatCurrency) == s.body.value
  {
    if s.body.Some? && NoBodyToken(s.body.value, s.bankAccounts.GetOr([]), s.pix.GetOr([])) {
      var t := s.body.value;
      assert BaseBody(s, month, year, formatCurrency) == t;
      ApplyPassesUnchanged(t, s.bankAccounts.GetOr([]), AccountPrefix, AccountBlock);
      ApplyPassesUnchanged(t, s.pix.GetOr([]), PixPrefix, PixBlock);
    }
  }

  /** Templates without any `{` come out exactly as written. */
  lemma LiteralTemplates(s: StoredSettings, month: MonthIndex, year: nat, formatCurrency: int -> string)
    ensures s.subject.Some? && '{' !in s.subject.value ==> ResolveSubject(s, month, year) == s.subject.value
    ensures s.body.Some? && '{' !in s.body.value ==> ResolveBody(s, month, year, formatCurrency) == s.body.value
  {
    if s.subject.Some? && '{' !in s.subject.value {
      var t := s.subject.value;
      HeadFreeNotOccurs(t, "{MES}");
      HeadFreeNotOccurs(t, "{ANO}");
      HeadFreeNotOccurs(t, "{EMPRESA}");
    }
    if s.body.Some? && '{' !in s.body.value {
      var t := s.body.value;
      HeadFreeNotOccurs(t, "{MES}");
      HeadFreeNotOccurs(t, "{ANO}");
      HeadFreeNotOccurs(t, "{SALARIO}");
      PrefixesPlain();
      BraceFreeHasNoToken(t, AccountPrefix);
      BraceFreeHasNoToken(t, PixPrefix);
    }
    TokenFreeTemplates(s, month, year, formatCurrency);
  }

  /** Rendering again the resolved texts, once they hold none of the tokens, changes nothing. */
  lemma RenderIdempotent(s: StoredSettings, month: MonthIndex, year: nat, formatCurrency: int -> string)
    requires var r := Render(Some(s), month, year, formatCurrency);
      NoSubjectToken(r.subject) && NoBodyToken(r.body, s.bankAccounts.GetOr([]), s.pix.GetOr([]))
    ensures var r := Render(Some(s), month, year, formatCurrency);
      Render(Some(s.(subject := Some(r.subject), body := Some(r.body))), month, year, formatCurrency) == r
  {
    var r := Render(Some(s), month, year, formatCurrency);
    TokenFreeTemplates(s.(subject := Some(r.subject), body := Some(r.body)), month, year, formatCurrency);
  }

  /** The two list prefixes are plain, non-empty and start with different letters. */
  lemma PrefixesPlain()
    ensures PlainPrefix(AccountPrefix) && PlainPrefix(PixPrefix)
    ensures |AccountPrefix| > 0 && |PixPrefix| > 0 && AccountPrefix[0] != PixPrefix[0]
  {
  }

  lemma PlaceholdersClosed()
    ensures Closed("{MES}") && Closed("{ANO}") && Closed("{SALARIO}")
  {
    assert "{MES}"[..4] == "{MES";
    assert "{ANO}"[..4] == "{ANO";
    assert "{SALARIO}"[..8] == "{SALARIO";
  }

  /** A brace-free lead followed by a token of one list holds no token of a list with another initial. */
  lemma OtherListTokenAbsent(lead: string, other: string, j: nat, prefix: string)
    requires PlainPrefix(prefix) && PlainPrefix(other) && |prefix| > 0 && |other| > 0 && prefix[0] != other[0]
    requires '{' !in lead
    ensures forall n: nat :: !Occurs(Join([lead, ""], Token(other, j)), Token(prefix, n))
  {
    TokenShape(other, j);
    forall n: nat ensures !Occurs(Join([lead, ""], Token(other, j)), Token(prefix, n)) {
      TokenShape(prefix, n);
      OtherTokenAbsent([lead, ""], other, j, prefix, n);
    }
  }

  /** The passes of a list over brace-free text and one token of an entry whose block is brace-free. */
  lemma PassesAfterLead<T>(lead: string, entries: seq<T>, prefix: string, block: T -> string, j: nat)
    requires PlainPrefix(prefix) && '{' !in lead && j < |entries| && '{' !in block(entries[j])
    ensures ApplyPasses(lead + Token(prefix, j), entries, prefix, block) == lead + block(entries[j])
  {
    JoinPair(lead, Token(prefix, j));
    JoinPair(lead, block(entries[j]));
    BraceFreeHasNoToken(lead + block(entries[j]), prefix);
    PassesAtToken([lead, ""], entries, prefix, block, j);
  }

  /** The account passes over a lone account token whose institution name is a token of another list. */
  lemma AccountNamedByToken(accounts: seq<BankAccount>, k: nat, j: nat, prefix: string, other: string)
    requires PlainPrefix(prefix) && PlainPrefix(other) && |prefix| > 0 && |other| > 0 && prefix[0] != other[0]
    requires k < |accounts|
    requires accounts[k].name == Token(other, j) && '{' !in accounts[k].agency && '{' !in accounts[k].number
    ensures ApplyPasses(Token(prefix, k), accounts, prefix, AccountBlock)
         == accounts[k].agency + "\n" + accounts[k].number + "\n" + Token(other, j)
  {
    var a := accounts[k];
    var lead := a.agency + "\n" + a.number + "\n";
    JoinPair(lead, Token(prefix, k));
    JoinPair(lead, Token(other, j));
    assert Join(["", ""], AccountBlock(a)) == Join([lead, ""], Token(other, j)) by {
      JoinPair(lead, AccountBlock(a));
    }
    OtherListTokenAbsent(lead, other, j, prefix);
    PassesAtToken(["", ""], accounts, prefix, AccountBlock, k);
  }

  /** Both lists' passes over a lone account token whose institution name is a PIX token. */
  lemma TokenInAccountName(accounts: seq<BankAccount>, pix: seq<Pix>, k: nat, j: nat, prefix: string, other: string)
    requires PlainPrefix(prefix) && PlainPrefix(other) && |prefix| > 0 && |other| > 0 && prefix[0] != other[0]
    requires k < |accounts| && j < |pix|
    requires accounts[k].name == Token(other, j) && '{' !in accounts[k].agency && '{' !in accounts[k].number
    requires '{' !in PixBlock(pix[j])
    ensures ApplyPasses(ApplyPasses(Token(prefix, k), accounts, prefix, AccountBlock), pix, other, PixBlock)
         == accounts[k].agency + "\n" + accounts[k].number + "\n" + PixBlock(pix[j])
  {
    var lead := accounts[k].agency + "\n" + accounts[k].number + "\n";
    AccountNamedByToken(accounts, k, j, prefix, other);
    PassesAfterLead(lead, pix, other, PixBlock, j);
  }



  /**
   * Passes run on the previous result: in a body that is one account token, an
   * account whose institution name is a PIX token brings that token into the
   * body, and the later PIX pass resolves it.
   */
  lemma LaterPassSeesEarlierText(s: StoredSettings, month: MonthIndex, year: nat, formatCurrency: int -> string,
                                 k: nat, j: nat)
    requires s.body == Some(Token(AccountPrefix, k))
    requires s.bankAccounts.Some? && k < |s.bankAccounts.value| && s.pix.Some? && j < |s.pix.value|
    requires var a := s.bankAccounts.value[k];
      a.name == Token(PixPrefix, j) && '{' !in a.agency && '{' !in a.number
    requires '{' !in PixBlock(s.pix.value[j])
    ensures var a := s.bankAccounts.value[k];
      ResolveBody(s, month, year, formatCurrency) == a.agency + "\n" + a.number + "\n" + PixBlock(s.pix.value[j])
  {
    var accounts, pix := s.bankAccounts.value, s.pix.value;
    assert BaseBody(s, month, year, formatCurrency) == Token(AccountPrefix, k) by {
      var ps := [Ref(Accounts, k)];
      assert ps[1..] == [];
      assert SpellPiece(ps[0]) == Token(AccountPrefix, k);
      assert Spell(ps) == SpellPiece(ps[0]) + Spell([]) == Token(AccountPrefix, k);
      BaseBodyOfTokens(s, month, year, formatCurrency, ps);
    }
    PrefixesPlain();
    TokenInAccountName(accounts, pix, k, j, AccountPrefix, PixPrefix);
  }

  /** Joining two pieces, written out once so that the proofs that use it stay cheap on every solver seed. */
  lemma JoinPair(x: string, sep: string)
    ensures Join([x, ""], sep) == x + sep
    ensures Join(["", ""], sep) == sep
  {
    assert [x, ""][1..] == [""];
    assert ["", ""][1..] == [""];
    assert x + sep + "" == x + sep;
    assert "" + sep + "" == sep;
  }

  // ---------------------------------------------------------------------------
  // Bodies built from literal text and list tokens

  datatype ListKind = Accounts | PixKeys

  function ListPrefix(kind: ListKind): string
  {
    match kind
    case Accounts => AccountPrefix
    case PixKeys => PixPrefix
  }

  /** Each list prefix is plain and non-empty, and the two lists' prefixes start with different letters. */
  lemma ListPrefixPlain(kind: ListKind)
    ensures PlainPrefix(ListPrefix(kind)) && |ListPrefix(kind)| > 0
    ensures forall other: ListKind :: other != kind ==> ListPrefix(other)[0] != ListPrefix(kind)[0]
  {
    PrefixesPlain();
  }

  /** A piece of a body template: literal text, or the token of entry `index` of a list. */
  datatype Piece = Text(text: string) | Ref(kind: ListKind, index: nat)

  function SpellPiece(p: Piece): string
  {
    match p
    case Text(t) => t
    case Ref(kind, k) => Token(ListPrefix(kind), k)
  }

  /** The template text the pieces spell. */
  function Spell(ps: seq<Piece>): string
    decreases |ps|
  {
    if ps == [] then "" else SpellPiece(ps[0]) + Spell(ps[1..])
  }

  /** The literal pieces hold no `{`. */
  predicate PlainPieces(ps: seq<Piece>)
  {
    forall i :: 0 <= i < |ps| ==> ps[i].Text? ==> '{' !in ps[i].text
  }

  /** The pieces one pass leaves: the token of entry `i` of list `kind` becomes the literal `rep`. */
  function PassPieces(ps: seq<Piece>, kind: ListKind, i: nat, rep: string): (r: seq<Piece>)
    ensures |r| == |ps|
  {
    seq(|ps|, j requires 0 <= j < |ps| => if ps[j] == Ref(kind, i) then Text(rep) else ps[j])
  }

  /** A piece after all passes of one list: the token of an existing entry becomes its block. */
  function ListPiece<T>(p: Piece, kind: ListKind, entries: seq<T>, block: T -> string): Piece
  {
    if p.Ref? && p.kind == kind && p.index < |entries| then Text(block(entries[p.index])) else p
  }

  /** The pieces all passes of one list leave. */
  function ListPieces<T>(ps: seq<Piece>, kind: ListKind, entries: seq<T>, block: T -> string): (r: seq<Piece>)
    ensures |r| == |ps|
  {
    seq(|ps|, j requires 0 <= j < |ps| => ListPiece(ps[j], kind, entries, block))
  }

  /** What a piece should come out as: its entry's block when that entry exists, otherwise as written. */
  function Filled(p: Piece, accounts: seq<BankAccount>, pix: seq<Pix>): string
  {
    match p
    case Text(t) => t
    case Ref(Accounts, k) => if k < |accounts| then AccountBlock(accounts[k]) else Token(AccountPrefix, k)
    case Ref(PixKeys, k) => if k < |pix| then PixBlock(pix[k]) else Token(PixPrefix, k)
  }

  /** The expected body: every piece filled in, in order. */
  function FilledText(ps: seq<Piece>, accounts: seq<BankAccount>, pix: seq<Pix>): string
    decreases |ps|
  {
    if ps == [] then "" else Filled(ps[0], accounts, pix) + FilledText(ps[1..], accounts, pix)
  }

  /** Two list references spell the same token only when they are the same reference. */
  lemma RefTokensDistinct(kind: ListKind, i: nat, other: ListKind, k: nat)
    requires Ref(kind, i) != Ref(other, k)
    ensures Token(ListPrefix(kind), i) != Token(ListPrefix(other), k)
  {
    ListPrefixPlain(kind);
    TokenShape(ListPrefix(kind), i);
    ListPrefixPlain(other);
    TokenShape(ListPrefix(other), k);
    if kind == other && Token(ListPrefix(kind), i) == Token(ListPrefix(other), k) {
      TokenInjective(ListPrefix(kind), i, k);
    }
  }

  lemma PlainTail(ps: seq<Piece>)
    requires PlainPieces(ps) && ps != []
    ensures PlainPieces(ps[1..]) && (ps[0].Text? ==> '{' !in ps[0].text)
  {
    forall j | 0 <= j < |ps[1..]| ensures ps[1..][j].Text? ==> '{' !in ps[1..][j].text {
      assert ps[1..][j] == ps[j + 1];
    }
  }

  /** No occurrence of a list token starts inside a leading piece other than that token. */
  lemma PieceSkip(p: Piece, rest: string, kind: ListKind, i: nat)
    requires p.Text? ==> '{' !in p.text
    requires p != Ref(kind, i)
    ensures NoMatchBefore(SpellPiece(p) + rest, Token(ListPrefix(kind), i), |SpellPiece(p)|)
  {
    var pat := Token(ListPrefix(kind), i);
    ListPrefixPlain(kind);
    TokenShape(ListPrefix(kind), i);
    match p
    case Text(t) =>
      HeadFreePrefix(t, rest, pat);
    case Ref(other, k) =>
      ListPrefixPlain(other);
      TokenShape(ListPrefix(other), k);
      RefTokensDistinct(kind, i, other, k);
      ClosedTokenSkip(Token(ListPrefix(other), k), rest, pat);
  }

  /** One pass over a text opening with its token: the token becomes `rep`, the scan goes on after it. */
  lemma PassAtToken(rest: string, kind: ListKind, i: nat, rep: string)
    ensures ReplaceAll(Token(ListPrefix(kind), i) + rest, Token(ListPrefix(kind), i), rep)
         == rep + ReplaceAll(rest, Token(ListPrefix(kind), i), rep)
  {
    ListPrefixPlain(kind);
    TokenShape(ListPrefix(kind), i);
    ReplaceAllHead(Token(ListPrefix(kind), i), rep, rest);
  }

  /** One pass over a text opening with another piece: the piece is kept, the scan goes on after it. */
  lemma PassPastPiece(p: Piece, rest: string, kind: ListKind, i: nat, rep: string)
    requires p.Text? ==> '{' !in p.text
    requires p != Ref(kind, i)
    ensures ReplaceAll(SpellPiece(p) + rest, Token(ListPrefix(kind), i), rep)
         == SpellPiece(p) + ReplaceAll(rest, Token(ListPrefix(kind), i), rep)
  {
    ListPrefixPlain(kind);
    TokenShape(ListPrefix(kind), i);
    PieceSkip(p, rest, kind, i);
    ReplaceAllSkip(SpellPiece(p), rest, Token(ListPrefix(kind), i), rep);
  }

  /** One pass over a leading piece: its token becomes `rep`, any other piece is kept. */
  lemma PassHead(p: Piece, rest: string, kind: ListKind, i: nat, rep: string)
    requires p.Text? ==> '{' !in p.text
    ensures ReplaceAll(SpellPiece(p) + rest, Token(ListPrefix(kind), i), rep)
         == SpellPiece(if p == Ref(kind, i) then Text(rep) else p) + ReplaceAll(rest, Token(ListPrefix(kind), i), rep)
  {
    if p == Ref(kind, i) {
      PassAtToken(rest, kind, i, rep);
    } else {
      PassPastPiece(p, rest, kind, i, rep);
    }
  }

  /** One pass over a body spelled by pieces replaces exactly the pieces that are its token. */
  lemma {:induction false} PassOverPieces(ps: seq<Piece>, kind: ListKind, i: nat, rep: string)
    requires PlainPieces(ps)
    ensures ReplaceAll(Spell(ps), Token(ListPrefix(kind), i), rep) == Spell(PassPieces(ps, kind, i, rep))
    decreases |ps|
  {
    var pat := Token(ListPrefix(kind), i);
    if ps == [] {
      assert ReplaceAll("", pat, rep) == "";
    } else {
      var out := PassPieces(ps, kind, i, rep);
      var rest := Spell(ps[1..]);
      PassPiecesCons(ps, kind, i, rep);
      assert ReplaceAll(rest, pat, rep) == Spell(out[1..]) by {
        PlainTail(ps);
        PassOverPieces(ps[1..], kind, i, rep);
      }
      assert ReplaceAll(Spell(ps), pat, rep) == SpellPiece(out[0]) + ReplaceAll(rest, pat, rep) by {
        PlainTail(ps);
        PassHead(ps[0], rest, kind, i, rep);
      }
      assert Spell(out) == SpellPiece(out[0]) + Spell(out[1..]);
    }
  }

  /** The pieces one pass leaves, split into the first and the rest. */
  lemma PassPiecesCons(ps: seq<Piece>, kind: ListKind, i: nat, rep: string)
    requires ps != []
    ensures var out := PassPieces(ps, kind, i, rep);
      && out[0] == (if ps[0] == Ref(kind, i) then Text(rep) else ps[0])
      && out[1..] == PassPieces(ps[1..], kind, i, rep)
  {
  }

  /** Blocks free of `{` keep the pieces free of `{`. */
  lemma ListPiecesPlain<T>(ps: seq<Piece>, kind: ListKind, entries: seq<T>, block: T -> string)
    requires PlainPieces(ps)
    requires forall j :: 0 <= j < |entries| ==> '{' !in block(entries[j])
    ensures PlainPieces(ListPieces(ps, kind, entries, block))
  {
    var r := ListPieces(ps, kind, entries, block);
    forall j | 0 <= j < |r| ensures r[j].Text? ==> '{' !in r[j].text {
      if ps[j].Ref? && ps[j].kind == kind && ps[j].index < |entries| {
        assert r[j] == Text(block(entries[ps[j].index]));
      }
    }
  }

  /** The pass of the last entry completes the pieces the earlier passes left. */
  lemma LastPass<T>(ps: seq<Piece>, kind: ListKind, entries: seq<T>, block: T -> string)
    requires |entries| > 0
    ensures var n := |entries| - 1;
      PassPieces(ListPieces(ps, kind, entries[..n], block), kind, n, block(entries[n])) == ListPieces(ps, kind, entries, block)
  {
    var n := |entries| - 1;
    var before := ListPieces(ps, kind, entries[..n], block);
    forall j | 0 <= j < |ps|
      ensures PassPieces(before, kind, n, block(entries[n]))[j] == ListPieces(ps, kind, entries, block)[j]
    {
      if ps[j].Ref? && ps[j].kind == kind && ps[j].index < n {
        assert entries[..n][ps[j].index] == entries[ps[j].index];
      }
    }
  }

  /** The passes of one list over a body spelled by pieces, when every block is free of `{`. */
  lemma {:induction false} ListPasses<T>(ps: seq<Piece>, kind: ListKind, entries: seq<T>, block: T -> string)
    requires PlainPieces(ps)
    requires forall j :: 0 <= j < |entries| ==> '{' !in block(entries[j])
    ensures ApplyPasses(Spell(ps), entries, ListPrefix(kind), block) == Spell(ListPieces(ps, kind, entries, block))
    decreases |entries|
  {
    if entries == [] {
      assert ListPieces(ps, kind, entries, block) == ps;
    } else {
      var n := |entries| - 1;
      var prior := entries[..n];
      assert forall j :: 0 <= j < |prior| ==> prior[j] == entries[j];
      ListPasses(ps, kind, prior, block);
      ListPiecesPlain(ps, kind, prior, block);
      PassOverPieces(ListPieces(ps, kind, prior, block), kind, n, block(entries[n]));
      LastPass(ps, kind, entries, block);
    }
  }

  /** One piece through the account passes and then the PIX passes comes out filled in. */
  lemma PieceFilled(p: Piece, accounts: seq<BankAccount>, pix: seq<Pix>)
    ensures SpellPiece(ListPiece(ListPiece(p, Accounts, accounts, AccountBlock), PixKeys, pix, PixBlock))
         == Filled(p, accounts, pix)
  {
  }

  /** The account passes and then the PIX passes fill every piece in. */
  lemma {:induction false} BothListsFilled(ps: seq<Piece>, accounts: seq<BankAccount>, pix: seq<Pix>)
    ensures Spell(ListPieces(ListPieces(ps, Accounts, accounts, AccountBlock), PixKeys, pix, PixBlock))
         == FilledText(ps, accounts, pix)
    decreases |ps|
  {
    if ps != [] {
      var once := ListPieces(ps, Accounts, accounts, AccountBlock);
      var both := ListPieces(once, PixKeys, pix, PixBlock);
      ListPiecesCons(ps, Accounts, accounts, AccountBlock);
      ListPiecesCons(once, PixKeys, pix, PixBlock);
      assert Spell(both[1..]) == FilledText(ps[1..], accounts, pix) by {
        BothListsFilled(ps[1..], accounts, pix);
      }
      assert SpellPiece(both[0]) == Filled(ps[0], accounts, pix) by {
        PieceFilled(ps[0], accounts, pix);
      }
      assert Spell(both) == SpellPiece(both[0]) + Spell(both[1..]);
      assert FilledText(ps, accounts, pix) == Filled(ps[0], accounts, pix) + FilledText(ps[1..], accounts, pix);
    }
  }

  /** The pieces all passes of one list leave, split into the first and the rest. */
  lemma ListPiecesCons<T>(ps: seq<Piece>, kind: ListKind, entries: seq<T>, block: T -> string)
    requires ps != []
    ensures var r := ListPieces(ps, kind, entries, block);
      && r[0] == ListPiece(ps[0], kind, entries, block)
      && r[1..] == ListPieces(ps[1..], kind, entries, block)
  {
  }

  /** No base placeholder starts inside a leading piece of literal text or a list token. */
  lemma PlaceholderSkip(p: Piece, rest: string, pat: string)
    requires p.Text? ==> '{' !in p.text
    requires Closed(pat) && pat[0] == '{' && |pat| > 1 && pat[1] != 'C' && pat[1] != 'P'
    ensures NoMatchBefore(SpellPiece(p) + rest, pat, |SpellPiece(p)|)
  {
    match p
    case Text(t) =>
      HeadFreePrefix(t, rest, pat);
    case Ref(kind, k) =>
      var head := SpellPiece(p);
      ListPrefixPlain(kind);
      TokenShape(ListPrefix(kind), k);
      assert head[1] != pat[1];
      ClosedTokenSkip(head, rest, pat);
  }

  /** The base placeholders do not occur in a body spelled by literal text and list tokens. */
  lemma {:induction false} NoPlaceholderInPieces(ps: seq<Piece>, pat: string)
    requires PlainPieces(ps) && Closed(pat) && pat[0] == '{' && |pat| > 1 && pat[1] != 'C' && pat[1] != 'P'
    ensures !Occurs(Spell(ps), pat)
    decreases |ps|
  {
    if ps == [] {
      HeadFreeNotOccurs("", pat);
    } else {
      var head, rest := SpellPiece(ps[0]), Spell(ps[1..]);
      PlainTail(ps);
      NoPlaceholderInPieces(ps[1..], pat);
      PlaceholderSkip(ps[0], rest, pat);
      OccursAfter(head, rest, pat);
    }
  }

  /** Every entry's block is free of `{`. */
  predicate PlainEntries(accounts: seq<BankAccount>, pix: seq<Pix>)
  {
    && (forall j :: 0 <= j < |accounts| ==> '{' !in AccountBlock(accounts[j]))
    && (forall j :: 0 <= j < |pix| ==> '{' !in PixBlock(pix[j]))
  }

  /** A body of literal text and list tokens has nothing for the base replacements to do. */
  lemma BaseBodyOfTokens(s: StoredSettings, month: MonthIndex, year: nat, formatCurrency: int -> string, ps: seq<Piece>)
    requires PlainPieces(ps) && s.body == Some(Spell(ps))
    ensures BaseBody(s, month, year, formatCurrency) == Spell(ps)
  {
    PlaceholdersClosed();
    NoPlaceholderInPieces(ps, "{MES}");
    NoPlaceholderInPieces(ps, "{ANO}");
    NoPlaceholderInPieces(ps, "{SALARIO}");
  }

  /** The account passes and then the PIX passes over a body spelled by pieces. */
  lemma PiecesResolved(ps: seq<Piece>, accounts: seq<BankAccount>, pix: seq<Pix>)
    requires PlainPieces(ps) && PlainEntries(accounts, pix)
    ensures ApplyPasses(ApplyPasses(Spell(ps), accounts, AccountPrefix, AccountBlock), pix, PixPrefix, PixBlock)
         == FilledText(ps, accounts, pix)
  {
    ListPasses(ps, Accounts, accounts, AccountBlock);
    var afterAccounts := ListPieces(ps, Accounts, accounts, AccountBlock);
    ListPiecesPlain(ps, Accounts, accounts, AccountBlock);
    ListPasses(afterAccounts, PixKeys, pix, PixBlock);
    BothListsFilled(ps, accounts, pix);
  }

  /**
   * A body of literal text and `{CONTA_NN}`/`{PIX_NN}` tokens: every token of an
   * existing entry becomes that entry's block, every token past the end of its
   * list stays as written, and the literal text is kept, all in one body.
   */
  lemma BodyResolved(s: StoredSettings, month: MonthIndex, year: nat, formatCurrency: int -> string, ps: seq<Piece>)
    requires PlainPieces(ps) && s.body == Some(Spell(ps))
    requires PlainEntries(s.bankAccounts.GetOr([]), s.pix.GetOr([]))
    ensures ResolveBody(s, month, year, formatCurrency) == FilledText(ps, s.bankAccounts.GetOr([]), s.pix.GetOr([]))
  {
    BaseBodyOfTokens(s, month, year, formatCurrency, ps);
    PiecesResolved(ps, s.bankAccounts.GetOr([]), s.pix.GetOr([]));
  }

  /** A leading literal piece spells and fills in as itself. */
  lemma LeadPiece(lead: string, ps: seq<Piece>, accounts: seq<BankAccount>, pix: seq<Pix>)
    requires '{' !in lead && PlainPieces(ps)
    ensures var qs := [Text(lead)] + ps;
      && PlainPieces(qs) && Spell(qs) == lead + Spell(ps)
      && FilledText(qs, accounts, pix) == lead + FilledText(ps, accounts, pix)
  {
    var qs := [Text(lead)] + ps;
    assert qs[1..] == ps;
    forall i | 0 <= i < |qs| && qs[i].Text? ensures '{' !in qs[i].text {
      if i > 0 {
        assert qs[i] == ps[i - 1];
      }
    }
  }

  /**
   * The body the app is built for: brace-free text with the first `{MES}`,
   * `{ANO}` and `{SALARIO}`, followed by literal text and list tokens. The three
   * placeholders are resolved and then every list token as in `BodyResolved`.
   */
  lemma FullBodyResolved(s: StoredSettings, month: MonthIndex, year: nat, formatCurrency: int -> string,
                         a: string, b: string, c: string, ps: seq<Piece>)
    requires '{' !in a && '{' !in b && '{' !in c && '{' !in formatCurrency(s.amount.GetOr(0))
    requires PlainPieces(ps) && s.body == Some(a + "{MES}" + b + "{ANO}" + c + "{SALARIO}" + Spell(ps))
    requires PlainEntries(s.bankAccounts.GetOr([]), s.pix.GetOr([]))
    ensures ResolveBody(s, month, year, formatCurrency)
         == a + MonthLabel(month) + b + NatToDecimal(year) + c + formatCurrency(s.amount.GetOr(0))
          + FilledText(ps, s.bankAccounts.GetOr([]), s.pix.GetOr([]))
  {
    var accounts, pix := s.bankAccounts.GetOr([]), s.pix.GetOr([]);
    var lead := a + MonthLabel(month) + b + NatToDecimal(year) + c + formatCurrency(s.amount.GetOr(0));
    BaseBodyShape(s, month, year, formatCurrency, a, b, c, Spell(ps));
    assert '{' !in lead by {
      MonthLabelsPlain();
      DigitsBraceFree(NatToDecimal(year));
    }
    LeadPiece(lead, ps, accounts, pix);
    PiecesResolved([Text(lead)] + ps, accounts, pix);
  }

  /** Four pieces, a gap, a token, the same gap, another token, spell their parts in a row. */
  lemma GapSpell(gap: string, r0: Piece, r1: Piece)
    ensures Spell([Text(gap), r0, Text(gap), r1]) == gap + (SpellPiece(r0) + gap + SpellPiece(r1))
  {
    var ps := [Text(gap), r0, Text(gap), r1];
    assert ps[1..] == [r0, Text(gap), r1];
    assert Spell(ps) == SpellPiece(ps[0]) + Spell(ps[1..]);
    SpellThree(r0, Text(gap), r1);
  }

  /** The same four pieces fill in to their parts in a row. */
  lemma GapFilled(gap: string, r0: Piece, r1: Piece, accounts: seq<BankAccount>, pix: seq<Pix>)
    ensures FilledText([Text(gap), r0, Text(gap), r1], accounts, pix)
         == gap + (Filled(r0, accounts, pix) + gap + Filled(r1, accounts, pix))
  {
    var ps := [Text(gap), r0, Text(gap), r1];
    assert ps[1..] == [r0, Text(gap), r1];
    assert FilledText(ps, accounts, pix) == Filled(ps[0], accounts, pix) + FilledText(ps[1..], accounts, pix);
    FilledThree(r0, Text(gap), r1, accounts, pix);
  }

  /** A gap, an existing account's token, the gap again and an existing PIX entry's token, as pieces. */
  lemma GapTokens(gap: string, k: nat, j: nat, accounts: seq<BankAccount>, pix: seq<Pix>)
    requires '{' !in gap && k < |accounts| && j < |pix|
    ensures var ps := [Text(gap), Ref(Accounts, k), Text(gap), Ref(PixKeys, j)];
      && PlainPieces(ps)
      && Spell(ps) == gap + (Token(AccountPrefix, k) + gap + Token(PixPrefix, j))
      && FilledText(ps, accounts, pix) == gap + (AccountBlock(accounts[k]) + gap + PixBlock(pix[j]))
  {
    var r0, r1 := Ref(Accounts, k), Ref(PixKeys, j);
    GapSpell(gap, r0, r1);
    GapFilled(gap, r0, r1, accounts, pix);
  }

  /** The regrouping `FullBodyShape` needs on both sides, stated apart so that its proof stays cheap on every solver seed. */
  lemma GapRegroup(x: string, gap: string, t0: string, t1: string)
    ensures x + gap + t0 + gap + t1 == x + (gap + (t0 + gap + t1))
  {
  }

  /** Base placeholders, then an account token and a PIX token each after the same brace-free gap. */
  lemma FullBodyShape(s: StoredSettings, month: MonthIndex, year: nat, formatCurrency: int -> string,
                      a: string, b: string, c: string, gap: string, k: nat, j: nat)
    requires '{' !in a && '{' !in b && '{' !in c && '{' !in gap && '{' !in formatCurrency(s.amount.GetOr(0))
    requires s.body == Some(a + "{MES}" + b + "{ANO}" + c + "{SALARIO}" + gap + Token(AccountPrefix, k) + gap + Token(PixPrefix, j))
    requires s.bankAccounts.Some? && k < |s.bankAccounts.value| && s.pix.Some? && j < |s.pix.value|
    requires PlainEntries(s.bankAccounts.value, s.pix.value)
    ensures ResolveBody(s, month, year, formatCurrency)
         == a + MonthLabel(month) + b + NatToDecimal(year) + c + formatCurrency(s.amount.GetOr(0))
          + gap + AccountBlock(s.bankAccounts.value[k]) + gap + PixBlock(s.pix.value[j])
  {
    var accounts, pix := s.bankAccounts.value, s.pix.value;
    GapRegroup(a + "{MES}" + b + "{ANO}" + c + "{SALARIO}", gap, Token(AccountPrefix, k), Token(PixPrefix, j));
    GapRegroup(a + MonthLabel(month) + b + NatToDecimal(year) + c + formatCurrency(s.amount.GetOr(0)),
               gap, AccountBlock(accounts[k]), PixBlock(pix[j]));
    GapTokens(gap, k, j, accounts, pix);
    FullBodyResolved(s, month, year, formatCurrency, a, b, c, [Text(gap), Ref(Accounts, k), Text(gap), Ref(PixKeys, j)]);
  }

  /**
   * The template "Referente a {MES}/{ANO}: {SALARIO} {CONTA_01} {PIX_01}" in any
   * month and year: each placeholder and the first account and PIX entry in place.
   */
  lemma ExampleResolved(s: StoredSettings, month: MonthIndex, year: nat, formatCurrency: int -> string)
    requires s.body == Some("Referente a " + "{MES}" + "/" + "{ANO}" + ": " + "{SALARIO}" + " " + "{CONTA_01}" + " " + "{PIX_01}")
    requires s.bankAccounts.Some? && |s.bankAccounts.value| > 0 && s.pix.Some? && |s.pix.value| > 0
    requires PlainEntries(s.bankAccounts.value, s.pix.value) && '{' !in formatCurrency(s.amount.GetOr(0))
    ensures ResolveBody(s, month, year, formatCurrency)
         == "Referente a " + MonthLabel(month) + "/" + NatToDecimal(year) + ": " + formatCurrency(s.amount.GetOr(0))
          + " " + AccountBlock(s.bankAccounts.value[0]) + " " + PixBlock(s.pix.value[0])
  {
    assert '{' !in "Referente a " && '{' !in "/" && '{' !in ": " && '{' !in " ";
    ExampleTokens(s.body.value);
    FullBodyShape(s, month, year, formatCurrency, "Referente a ", "/", ": ", " ", 0, 0);
  }

  /** The example template with its two list tokens written as tokens. */
  lemma ExampleTokens(t: string)
    requires t == "Referente a " + "{MES}" + "/" + "{ANO}" + ": " + "{SALARIO}" + " " + "{CONTA_01}" + " " + "{PIX_01}"
    ensures t == "Referente a " + "{MES}" + "/" + "{ANO}" + ": " + "{SALARIO}" + " " + Token(AccountPrefix, 0) + " " + Token(PixPrefix, 0)
  {
    FirstAccountToken();
    FirstPixToken();
  }

  /** The same template in July 2024. */
  lemma FullBodyExample(s: StoredSettings, month: MonthIndex, year: nat, formatCurrency: int -> string)
    requires month == 6 && year == 2024
    requires s.body == Some("Referente a " + "{MES}" + "/" + "{ANO}" + ": " + "{SALARIO}" + " " + "{CONTA_01}" + " " + "{PIX_01}")
    requires s.bankAccounts.Some? && |s.bankAccounts.value| > 0 && s.pix.Some? && |s.pix.value| > 0
    requires PlainEntries(s.bankAccounts.value, s.pix.value) && '{' !in formatCurrency(s.amount.GetOr(0))
    ensures ResolveBody(s, month, year, formatCurrency)
         == "Referente a " + "Julho" + "/" + "2024" + ": " + formatCurrency(s.amount.GetOr(0))
          + " " + AccountBlock(s.bankAccounts.value[0]) + " " + PixBlock(s.pix.value[0])
  {
    ExampleResolved(s, month, year, formatCurrency);
    assert NatToDecimal(year) == "2024" by {
      Year2024(year);
    }
    assert MonthLabel(month) == "Julho" by {
      assert Months[6] == "Julho";
    }
  }

  /** The first PIX entry's token. */
  lemma FirstPixToken()
    ensures Token(PixPrefix, 0) == "{PIX_01}"
  {
    assert DigitChar(1) == '1';
    assert NatToDecimal(1) == "1";
    assert PadStart("1", 2, '0') == "01";
  }

  /** The second account's token. */
  lemma SecondAccountToken()
    ensures Token(AccountPrefix, 1) == "{CONTA_02}"
  {
    assert DigitChar(2) == '2';
    assert NatToDecimal(2) == "2";
    assert PadStart("2", 2, '0') == "02";
  }

  /** Three pieces in a row spell their parts in a row. */
  lemma SpellThree(p0: Piece, p1: Piece, p2: Piece)
    ensures Spell([p0, p1, p2]) == SpellPiece(p0) + SpellPiece(p1) + SpellPiece(p2)
  {
    var x0, x1, x2 := SpellPiece(p0), SpellPiece(p1), SpellPiece(p2);
    assert Spell([p2]) == x2 by {
      assert [p2][1..] == [];
      assert Spell([p2]) == x2 + Spell([]);
      assert x2 + [] == x2;
    }
    assert Spell([p1, p2]) == x1 + x2 by {
      assert [p1, p2][1..] == [p2];
    }
    assert Spell([p0, p1, p2]) == x0 + (x1 + x2) by {
      assert [p0, p1, p2][1..] == [p1, p2];
    }
    assert x0 + (x1 + x2) == x0 + x1 + x2;
  }

  /** Three pieces in a row fill in to their parts in a row. */
  lemma FilledThree(p0: Piece, p1: Piece, p2: Piece, accounts: seq<BankAccount>, pix: seq<Pix>)
    ensures FilledText([p0, p1, p2], accounts, pix) == Filled(p0, accounts, pix) + Filled(p1, accounts, pix) + Filled(p2, accounts, pix)
  {
    assert [p0, p1, p2][1..] == [p1, p2];
    assert [p1, p2][1..] == [p2];
    assert [p2][1..] == [];
    assert FilledText([p2], accounts, pix) == Filled(p2, accounts, pix) + FilledText([], accounts, pix);
    assert FilledText([p1, p2], accounts, pix) == Filled(p1, accounts, pix) + FilledText([p2], accounts, pix);
    assert FilledText([p0, p1, p2], accounts, pix) == Filled(p0, accounts, pix) + FilledText([p1, p2], accounts, pix);
  }

  /** A body with an existing account's token, an existing PIX entry's token, and an account token past the end. */
  lemma BothListsShape(s: StoredSettings, month: MonthIndex, year: nat, formatCurrency: int -> string,
                       first: nat, pixIndex: nat, second: nat)
    requires s.body == Some(Token(AccountPrefix, first) + Token(PixPrefix, pixIndex) + Token(AccountPrefix, second))
    requires s.bankAccounts.Some? && first < |s.bankAccounts.value| <= second && s.pix.Some? && pixIndex < |s.pix.value|
    requires PlainEntries(s.bankAccounts.value, s.pix.value)
    ensures ResolveBody(s, month, year, formatCurrency)
         == AccountBlock(s.bankAccounts.value[first]) + PixBlock(s.pix.value[pixIndex]) + Token(AccountPrefix, second)
  {
    var accounts, pix := s.bankAccounts.value, s.pix.value;
    assert s.bankAccounts.GetOr([]) == accounts && s.pix.GetOr([]) == pix;
    var r0, r1, r2 := Ref(Accounts, first), Ref(PixKeys, pixIndex), Ref(Accounts, second);
    var ps := [r0, r1, r2];
    SpellThree(r0, r1, r2);
    FilledThree(r0, r1, r2, accounts, pix);
    assert SpellPiece(r0) == Token(AccountPrefix, first) && SpellPiece(r1) == Token(PixPrefix, pixIndex);
    assert SpellPiece(r2) == Filled(r2, accounts, pix) == Token(AccountPrefix, second);
    BodyResolved(s, month, year, formatCurrency, ps);
  }

  /**
   * The template "{CONTA_01}{PIX_01}{CONTA_02}" with one account: the first two
   * tokens are resolved, and `{CONTA_02}`, past the end of the list, stays as written.
   */
  lemma BothListsExample(s: StoredSettings, month: MonthIndex, year: nat, formatCurrency: int -> string,
                         first: nat, second: nat)
    requires first == 0 && second == 1
    requires s.body == Some("{CONTA_01}" + "{PIX_01}" + "{CONTA_02}")
    requires s.bankAccounts.Some? && |s.bankAccounts.value| == 1 && s.pix.Some? && |s.pix.value| > 0
    requires PlainEntries(s.bankAccounts.value, s.pix.value)
    ensures ResolveBody(s, month, year, formatCurrency)
         == AccountBlock(s.bankAccounts.value[0]) + PixBlock(s.pix.value[0]) + "{CONTA_02}"
  {
    FirstAccountToken();
    FirstPixToken();
    SecondAccountToken();
    BothListsShape(s, month, year, formatCurrency, first, first, second);
  }

}
