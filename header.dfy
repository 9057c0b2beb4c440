/**
 * The settings form: the shape of the saved settings, the validation schema,
 * the digits-only currency input, the defaulting applied when stored settings
 * are loaded into the form, and the empty entries the "Adicionar" buttons add.
 */
module Header {
  import opened Wrappers
  import opened Decimal

  datatype BankAccount = BankAccount(name: string, agency: string, number: string)

  datatype Pix = Pix(key: string, owner: string, bank: string)

  /**
   * The form's values.  `amount` is in cents and is absent until the form has
   * been loaded; the schema requires it.
   */
  datatype SettingsForm = SettingsForm(
    email: string,
    company: string,
    subject: string,
    body: string,
    amount: Option<int>,
    bankAccounts: seq<BankAccount>,
    pix: seq<Pix>)

  /** What the browser storage holds: every top-level field may be absent. */
  datatype StoredSettings = StoredSettings(
    email: Option<string>,
    company: Option<string>,
    subject: Option<string>,
    body: Option<string>,
    amount: Option<int>,
    bankAccounts: Option<seq<BankAccount>>,
    pix: Option<seq<Pix>>)

  // ---------------------------------------------------------------------------
  // settingsSchema

  predicate ValidAccount(a: BankAccount)
  {
    a.name != "" && a.agency != "" && a.number != ""
  }

  predicate ValidPix(p: Pix)
  {
    p.key != "" && p.owner != "" && p.bank != ""
  }

  /** What the schema accepts, field by field. */
  predicate ValidSettings(f: SettingsForm)
  {
    && f.email != "" && f.company != "" && f.subject != "" && f.body != ""
    && f.amount.Some?
    && (forall k :: 0 <= k < |f.bankAccounts| ==> ValidAccount(f.bankAccounts[k]))
    && (forall k :: 0 <= k < |f.pix| ==> ValidPix(f.pix[k]))
  }

  /** The path of a field the schema reports as "Obrigatório". */
  datatype FieldPath =
    | Email | Company | Subject | Body | Amount
    | AccountName(i: nat) | AccountAgency(i: nat) | AccountNumber(i: nat)
    | PixKey(i: nat) | PixOwner(i: nat) | PixBank(i: nat)

  function Check(ok: bool, path: FieldPath): set<FieldPath>
  {
    if ok then {} else {path}
  }

  /** The issues of the entries of a bank-account list. */
  function AccountIssues(accounts: seq<BankAccount>): set<FieldPath>
    decreases |accounts|
  {
    if accounts == [] then {}
    else
      var i := |accounts| - 1;
      var a := accounts[i];
      AccountIssues(accounts[..i])
        + Check(a.name != "", AccountName(i))
        + Check(a.agency != "", AccountAgency(i))
        + Check(a.number != "", AccountNumber(i))
  }

  /** The issues of the entries of a PIX list. */
  function PixIssues(pix: seq<Pix>): set<FieldPath>
    decreases |pix|
  {
    if pix == [] then {}
    else
      var i := |pix| - 1;
      var p := pix[i];
      PixIssues(pix[..i])
        + Check(p.key != "", PixKey(i))
        + Check(p.owner != "", PixOwner(i))
        + Check(p.bank != "", PixBank(i))
  }

  /** Every issue the schema reports for a form value. */
  function SchemaIssues(f: SettingsForm): set<FieldPath>
  {
    Check(f.email != "", Email)
      + Check(f.company != "", Company)
      + Check(f.subject != "", Subject)
      + Check(f.body != "", Body)
      + Check(f.amount.Some?, Amount)
      + AccountIssues(f.bankAccounts)
      + PixIssues(f.pix)
  }

  /** The field a path names is empty in the account list. */
  predicate AccountFieldEmpty(accounts: seq<BankAccount>, p: FieldPath)
  {
    match p
    case AccountName(i) => i < |accounts| && accounts[i].name == ""
    case AccountAgency(i) => i < |accounts| && accounts[i].agency == ""
    case AccountNumber(i) => i < |accounts| && accounts[i].number == ""
    case _ => false
  }

  /** The field a path names is empty in the PIX list. */
  predicate PixFieldEmpty(pix: seq<Pix>, p: FieldPath)
  {
    match p
    case PixKey(i) => i < |pix| && pix[i].key == ""
    case PixOwner(i) => i < |pix| && pix[i].owner == ""
    case PixBank(i) => i < |pix| && pix[i].bank == ""
    case _ => false
  }

  /** An account path is reported exactly when the field it names is empty. */
  lemma {:induction false} AccountIssuesExact(accounts: seq<BankAccount>, p: FieldPath)
    ensures p in AccountIssues(accounts) <==> AccountFieldEmpty(accounts, p)
    decreases |accounts|
  {
    if accounts != [] {
      var i := |accounts| - 1;
      var e := accounts[i];
      var prefix := accounts[..i];
      var tail := Check(e.name != "", AccountName(i)) + Check(e.agency != "", AccountAgency(i)) + Check(e.number != "", AccountNumber(i));
      assert AccountIssues(accounts) == AccountIssues(prefix) + tail;
      assert p in tail <==> (p == AccountName(i) && e.name == "") || (p == AccountAgency(i) && e.agency == "") || (p == AccountNumber(i) && e.number == "");
      AccountIssuesExact(prefix, p);
      match p
      case AccountName(j) => if j < i { assert prefix[j] == accounts[j]; }
      case AccountAgency(j) => if j < i { assert prefix[j] == accounts[j]; }
      case AccountNumber(j) => if j < i { assert prefix[j] == accounts[j]; }
      case _ =>
    }
  }


  /** A PIX path is reported exactly when the field it names is empty. */
  lemma {:induction false} PixIssuesExact(pix: seq<Pix>, p: FieldPath)
    ensures p in PixIssues(pix) <==> PixFieldEmpty(pix, p)
    decreases |pix|
  {
    if pix != [] {
      var i := |pix| - 1;
      var e := pix[i];
      var prefix := pix[..i];
      var tail := Check(e.key != "", PixKey(i)) + Check(e.owner != "", PixOwner(i)) + Check(e.bank != "", PixBank(i));
      assert PixIssues(pix) == PixIssues(prefix) + tail;
      assert p in tail <==> (p == PixKey(i) && e.key == "") || (p == PixOwner(i) && e.owner == "") || (p == PixBank(i) && e.bank == "");
      PixIssuesExact(prefix, p);
      match p
      case PixKey(j) => if j < i { assert prefix[j] == pix[j]; }
      case PixOwner(j) => if j < i { assert prefix[j] == pix[j]; }
      case PixBank(j) => if j < i { assert prefix[j] == pix[j]; }
      case _ =>
    }
  }


  /** The schema reports no issue exactly when the settings are valid. */
  lemma SchemaAcceptsValid(f: SettingsForm)
    ensures SchemaIssues(f) == {} <==> ValidSettings(f)
  {
    AccountsAcceptValid(f.bankAccounts);
    PixAcceptValid(f.pix);
  }

  /** A bank-account list has no issues exactly when every entry is valid. */
  lemma AccountsAcceptValid(accounts: seq<BankAccount>)
    ensures AccountIssues(accounts) == {} <==> forall k :: 0 <= k < |accounts| ==> ValidAccount(accounts[k])
  {
    if AccountIssues(accounts) == {} {
      forall k | 0 <= k < |accounts| ensures ValidAccount(accounts[k]) {
        AccountIssuesExact(accounts, AccountName(k));
        AccountIssuesExact(accounts, AccountAgency(k));
        AccountIssuesExact(accounts, AccountNumber(k));
      }
    }
    if forall k :: 0 <= k < |accounts| ==> ValidAccount(accounts[k]) {
      forall p ensures p !in AccountIssues(accounts) {
        AccountIssuesExact(accounts, p);
      }
    }
  }

  /** A PIX list has no issues exactly when every entry is valid. */
  lemma PixAcceptValid(pix: seq<Pix>)
    ensures PixIssues(pix) == {} <==> forall k :: 0 <= k < |pix| ==> ValidPix(pix[k])
  {
    if PixIssues(pix) == {} {
      forall k | 0 <= k < |pix| ensures ValidPix(pix[k]) {
        PixIssuesExact(pix, PixKey(k));
        PixIssuesExact(pix, PixOwner(k));
        PixIssuesExact(pix, PixBank(k));
      }
    }
    if forall k :: 0 <= k < |pix| ==> ValidPix(pix[k]) {
      forall p ensures p !in PixIssues(pix) {
        PixIssuesExact(pix, p);
      }
    }
  }

  /** Lists have no minimum length: empty lists never cause an issue. */
  lemma EmptyListsAccepted(f: SettingsForm)
    requires f.bankAccounts == [] && f.pix == []
    ensures ValidSettings(f) <==> f.email != "" && f.company != "" && f.subject != "" && f.body != "" && f.amount.Some?
  {
  }

  // ---------------------------------------------------------------------------
  // The "Adicionar" buttons

  const EmptyAccount := BankAccount("", "", "")
  const EmptyPix := Pix("", "", "")

  /** `newBankAccount({agency: "", name: "", number: ""})`. */
  function AddBankAccount(f: SettingsForm): SettingsForm
  {
    f.(bankAccounts := f.bankAccounts + [EmptyAccount])
  }

  /** `newPix({key: "", owner: "", bank: ""})`. */
  function AddPix(f: SettingsForm): SettingsForm
  {
    f.(pix := f.pix + [EmptyPix])
  }

  /** A freshly added account makes the form invalid, with its three fields reported. */
  lemma AddBankAccountInvalid(f: SettingsForm)
    ensures !ValidSettings(AddBankAccount(f))
    ensures var i := |f.bankAccounts|;
      var issues := SchemaIssues(AddBankAccount(f));
      AccountName(i) in issues && AccountAgency(i) in issues && AccountNumber(i) in issues
  {
    var accounts := AddBankAccount(f).bankAccounts;
    var i := |f.bankAccounts|;
    assert accounts[i] == EmptyAccount;
    AccountIssuesExact(accounts, AccountName(i));
    AccountIssuesExact(accounts, AccountAgency(i));
    AccountIssuesExact(accounts, AccountNumber(i));
  }

  /** A freshly added PIX entry makes the form invalid, with its three fields reported. */
  lemma AddPixInvalid(f: SettingsForm)
    ensures !ValidSettings(AddPix(f))
    ensures var i := |f.pix|;
      var issues := SchemaIssues(AddPix(f));
      PixKey(i) in issues && PixOwner(i) in issues && PixBank(i) in issues
  {
    var pix := AddPix(f).pix;
    var i := |f.pix|;
    assert pix[i] == EmptyPix;
    PixIssuesExact(pix, PixKey(i));
    PixIssuesExact(pix, PixOwner(i));
    PixIssuesExact(pix, PixBank(i));
  }

  /** Once the fields of the added account are filled in, a valid form is valid again exactly when they are all non-empty. */
  lemma FilledAccountValid(f: SettingsForm, a: BankAccount)
    requires ValidSettings(f)
    ensures var g := AddBankAccount(f);
      ValidSettings(g.(bankAccounts := g.bankAccounts[|f.bankAccounts| := a])) <==> ValidAccount(a)
  {
    var g := AddBankAccount(f);
    var filled := g.bankAccounts[|f.bankAccounts| := a];
    assert filled == f.bankAccounts + [a];
    assert filled[|f.bankAccounts|] == a;
  }

  /** Once the fields of the added PIX entry are filled in, a valid form is valid again exactly when they are all non-empty. */
  lemma FilledPixValid(f: SettingsForm, p: Pix)
    requires ValidSettings(f)
    ensures var g := AddPix(f);
      ValidSettings(g.(pix := g.pix[|f.pix| := p])) <==> ValidPix(p)
  {
    var g := AddPix(f);
    var filled := g.pix[|f.pix| := p];
    assert filled == f.pix + [p];
    assert filled[|f.pix|] == p;
  }

  // ---------------------------------------------------------------------------
  // CurrencyInput.handleChange

  /** `raw.replace(/\D/g, "")`: the digits of `raw`, in order. */
  function KeepDigits(raw: string): (r: string)
    ensures AllDigits(r) && |r| <= |raw|
    ensures forall k :: 0 <= k < |r| ==> r[k] in raw
    decreases |raw|
  {
    if raw == [] then []
    else (if IsDigit(raw[0]) then [raw[0]] else []) + KeepDigits(raw[1..])
  }

  /** The value in cents the input reports: `Number(digits)`, before the division by 100. */
  function EnteredCents(raw: string): nat
  {
    DecimalValue(KeepDigits(raw))
  }

  /** Filtering distributes over concatenation: characters are kept or dropped one by one, in order. */
  lemma {:induction false} KeepDigitsAppend(a: string, b: string)
    ensures KeepDigits(a + b) == KeepDigits(a) + KeepDigits(b)
    decreases |a|
  {
    if a != [] {
      assert (a + b)[1..] == a[1..] + b;
      KeepDigitsAppend(a[1..], b);
    } else {
      assert a + b == b;
    }
  }

  /** A single character is kept exactly when it is a digit. */
  lemma KeepDigitsChar(c: char)
    ensures KeepDigits([c]) == if IsDigit(c) then [c] else []
  {
    assert [c][1..] == [];
  }

  /** A text of digits passes the filter unchanged. */
  lemma {:induction false} KeepDigitsOfDigits(s: string)
    requires AllDigits(s)
    ensures KeepDigits(s) == s
    decreases |s|
  {
    if s != [] {
      KeepDigitsOfDigits(s[1..]);
    }
  }

  /** A text without digits filters to the empty text, whose value is 0. */
  lemma {:induction false} NoDigitsIsZero(raw: string)
    requires forall k :: 0 <= k < |raw| ==> !IsDigit(raw[k])
    ensures KeepDigits(raw) == [] && EnteredCents(raw) == 0
    decreases |raw|
  {
    if raw != [] {
      NoDigitsIsZero(raw[1..]);
    }
  }

  /** Typing a digit at the end shifts the amount one decimal place and adds it; any other key changes nothing. */
  lemma TypeCharacter(raw: string, c: char)
    ensures IsDigit(c) ==> EnteredCents(raw + [c]) == EnteredCents(raw) * 10 + DigitValue(c)
    ensures !IsDigit(c) ==> EnteredCents(raw + [c]) == EnteredCents(raw)
  {
    KeepDigitsAppend(raw, [c]);
    KeepDigitsChar(c);
    if IsDigit(c) {
      AppendDigit(KeepDigits(raw), c);
    } else {
      assert KeepDigits(raw) + [] == KeepDigits(raw);
    }
  }

  /** Leading zeros and any non-digit decoration (such as "R$ 0,0") do not change the amount. */
  lemma LeadingZerosIgnored(z: string, raw: string)
    requires forall k :: 0 <= k < |z| ==> z[k] == '0' || !IsDigit(z[k])
    ensures EnteredCents(z + raw) == EnteredCents(raw)
  {
    KeepDigitsAppend(z, raw);
    var zd := KeepDigits(z);
    forall k | 0 <= k < |zd| ensures zd[k] == '0' {
      assert zd[k] in z;
      var j :| 0 <= j < |z| && z[j] == zd[k];
    }
    LeadingZeros(zd, KeepDigits(raw));
  }

  /** Typing the decimal text of a number of cents enters exactly that number. */
  lemma EnteredCentsOfDecimal(n: nat)
    ensures EnteredCents(NatToDecimal(n)) == n
  {
    KeepDigitsOfDigits(NatToDecimal(n));
    DecimalRoundTrip(n);
  }

  // ---------------------------------------------------------------------------
  // Loading stored settings into the form

  /** `settings.x || default` for each field. */
  function LoadDefaults(s: StoredSettings): (f: SettingsForm)
    ensures s.email.None? ==> f.email == ""
    ensures s.company.None? ==> f.company == ""
    ensures s.subject.None? ==> f.subject == ""
    ensures s.body.None? ==> f.body == ""
    ensures s.amount.None? || s.amount == Some(0) ==> f.amount == Some(0)
    ensures s.bankAccounts.None? ==> f.bankAccounts == []
    ensures s.pix.None? ==> f.pix == []
    ensures s.email.Some? ==> f.email == s.email.value
    ensures s.company.Some? ==> f.company == s.company.value
    ensures s.subject.Some? ==> f.subject == s.subject.value
    ensures s.body.Some? ==> f.body == s.body.value
    ensures s.amount.Some? ==> f.amount == s.amount
    ensures s.bankAccounts.Some? ==> f.bankAccounts == s.bankAccounts.value
    ensures s.pix.Some? ==> f.pix == s.pix.value
    ensures f.amount.Some?
  {
    SettingsForm(
      s.email.GetOr(""),
      s.company.GetOr(""),
      s.subject.GetOr(""),
      s.body.GetOr(""),
      Some(if s.amount.Some? && s.amount.value != 0 then s.amount.value else 0),
      s.bankAccounts.GetOr([]),
      s.pix.GetOr([]))
  }

  /** What `setSettings(data)` writes: every field, with an absent amount left out. */
  function Save(f: SettingsForm): StoredSettings
  {
    StoredSettings(
      Some(f.email), Some(f.company), Some(f.subject), Some(f.body),
      f.amount, Some(f.bankAccounts), Some(f.pix))
  }

  /** Saving a submitted (valid) form and loading it again gives back the same form. */
  lemma LoadAfterSave(f: SettingsForm)
    requires ValidSettings(f)
    ensures LoadDefaults(Save(f)) == f
  {
  }
}
