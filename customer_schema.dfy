/** CustomerSchema: the customer record's columns, the required list, the
  * text formats, the customer-status transitions and the credit-approval
  * workflow. */
module CustomerSchema {
  import opened Basics
  import opened Text
  import opened JsValues

  datatype ColumnKind = NumberColumn | StringColumn | TextColumn | DecimalColumn | BooleanColumn | DatetimeColumn

  datatype Column = Column(name: string, kind: ColumnKind, required: bool, maxLength: Option<nat>)

  /** customerSchema, in declaration order. */
  const Columns: seq<Column> := [
    Column("id", NumberColumn, false, None),
    Column("accountNo", StringColumn, true, Some(20)),
    Column("accountName", StringColumn, true, Some(255)),
    Column("companyType", StringColumn, true, None),
    Column("companyRegistrationNo", StringColumn, false, Some(50)),
    Column("vatRegistrationNo", StringColumn, false, Some(20)),
    Column("phone", StringColumn, false, Some(20)),
    Column("email", StringColumn, false, Some(255)),
    Column("website", StringColumn, false, Some(255)),
    Column("parentAccount", NumberColumn, false, None),
    Column("accountType", StringColumn, true, None),
    Column("customerStatus", StringColumn, false, None),
    Column("approvalStatus", StringColumn, false, None),
    Column("salesRepresentative", StringColumn, false, Some(100)),
    Column("relationshipType", StringColumn, false, None),
    Column("primaryContact", StringColumn, false, Some(100)),
    Column("address", TextColumn, false, None),
    Column("quotesRequested", NumberColumn, false, None),
    Column("totalQuoteValue", DecimalColumn, false, None),
    Column("ordersPlaced", NumberColumn, false, None),
    Column("isActive", BooleanColumn, false, None),
    Column("dateCreated", DatetimeColumn, false, None),
    Column("dateUpdated", DatetimeColumn, false, None)
  ]

  /** customerValidation.required. */
  const RequiredNames: seq<string> := ["accountNo", "accountName", "companyType", "accountType"]

  /** The names of the columns from position `i` on that are flagged
    * required, in order. */
  function FlaggedFrom(cs: seq<Column>, i: nat): (r: seq<string>)
    requires i <= |cs|
    decreases |cs| - i
  {
    if i == |cs| then []
    else (if cs[i].required then [cs[i].name] else []) + FlaggedFrom(cs, i + 1)
  }

  /** Every name listed is that of a column, from position `i` on, flagged
    * required. */
  lemma {:induction false} FlaggedAreRequired(cs: seq<Column>, i: nat)
    requires i <= |cs|
    ensures forall n :: n in FlaggedFrom(cs, i) ==> exists k :: i <= k < |cs| && cs[k].name == n && cs[k].required
    decreases |cs| - i
  {
    if i < |cs| {
      FlaggedAreRequired(cs, i + 1);
    }
  }

  /** No column after the eleventh is flagged required. */
  lemma FlaggedTail()
    ensures FlaggedFrom(Columns, 11) == []
  {
    assert FlaggedFrom(Columns, 23) == [];
    assert FlaggedFrom(Columns, 22) == [];
    assert FlaggedFrom(Columns, 21) == [];
    assert FlaggedFrom(Columns, 20) == [];
    assert FlaggedFrom(Columns, 19) == [];
    assert FlaggedFrom(Columns, 18) == [];
    assert FlaggedFrom(Columns, 17) == [];
    assert FlaggedFrom(Columns, 16) == [];
    assert FlaggedFrom(Columns, 15) == [];
    assert FlaggedFrom(Columns, 14) == [];
    assert FlaggedFrom(Columns, 13) == [];
    assert FlaggedFrom(Columns, 12) == [];
  }

  /** Of the columns from the fifth on, only the eleventh is flagged. */
  lemma FlaggedMiddle()
    ensures FlaggedFrom(Columns, 4) == [Columns[10].name]
  {
    FlaggedTail();
    assert FlaggedFrom(Columns, 10) == [Columns[10].name];
    assert FlaggedFrom(Columns, 9) == [Columns[10].name];
    assert FlaggedFrom(Columns, 8) == [Columns[10].name];
    assert FlaggedFrom(Columns, 7) == [Columns[10].name];
    assert FlaggedFrom(Columns, 6) == [Columns[10].name];
    assert FlaggedFrom(Columns, 5) == [Columns[10].name];
  }

  /** The required list is exactly the columns flagged required. */
  lemma RequiredListMatchesColumns()
    ensures FlaggedFrom(Columns, 0) == RequiredNames
  {
    FlaggedMiddle();
    var names := [Columns[1].name, Columns[2].name, Columns[3].name, Columns[10].name];
    assert FlaggedFrom(Columns, 1) == names;
    assert names == RequiredNames;
  }

  // ---------------------------------------------------------------------
  // Formats

  predicate EmailChar(c: char) { !IsSpace(c) && c != '@' }

  predicate AllEmailChars(s: string) { forall k :: 0 <= k < |s| ==> EmailChar(s[k]) }

  /** `/^[^\s@]+@[^\s@]+\.[^\s@]+$/`. */
  predicate EmailFormat(s: string) {
    exists at, dot :: 0 < at && at + 1 < dot && dot + 1 < |s| && s[at] == '@' && s[dot] == '.' &&
      AllEmailChars(s[..at]) && AllEmailChars(s[at + 1..dot]) && AllEmailChars(s[dot + 1..])
  }

  /** An address in the email format holds exactly one '@', which is neither
    * its first nor its last character. */
  lemma EmailHasOneAt(s: string)
    requires EmailFormat(s)
    ensures exists at :: 0 < at < |s| - 1 && s[at] == '@' && forall k :: 0 <= k < |s| && k != at ==> s[k] != '@'
  {
    var at, dot :| 0 < at && at + 1 < dot && dot + 1 < |s| && s[at] == '@' && s[dot] == '.' &&
      AllEmailChars(s[..at]) && AllEmailChars(s[at + 1..dot]) && AllEmailChars(s[dot + 1..]);
    forall k | 0 <= k < |s| && k != at ensures s[k] != '@' {
      if k < at {
        assert s[..at][k] == s[k];
      } else if k < dot {
        assert s[at + 1..dot][k - at - 1] == s[k];
      } else if k > dot {
        assert s[dot + 1..][k - dot - 1] == s[k];
      }
    }
  }

  predicate PhoneChar(c: char) { IsDigit(c) || IsSpace(c) || c == '-' || c == '(' || c == ')' }

  /** `/^[\+]?[\d\s\-\(\)]+$/`. */
  predicate PhoneFormat(s: string) {
    var body := if |s| > 0 && s[0] == '+' then s[1..] else s;
    |body| > 0 && forall k :: 0 <= k < |body| ==> PhoneChar(body[k])
  }

  predicate LineTerminator(c: char) { c == '\n' || c == '\r' || c == '\U{2028}' || c == '\U{2029}' }

  /** `/^https?:\/\/.+/`: the scheme, then at least one character that is not
    * a line terminator. */
  predicate WebsiteFormat(s: string) {
    (|s| > 7 && s[..7] == "http://" && !LineTerminator(s[7])) ||
    (|s| > 8 && s[..8] == "https://" && !LineTerminator(s[8]))
  }

  // ---------------------------------------------------------------------
  // Status transitions

  /** The customerStatus enum. */
  const CustomerStatuses: seq<string> :=
    ["Prospect", "Confirmed Customer", "Account Under Review", "Credit Approved", "Account Closed"]

  /** allowedStatusTransitions. */
  const StatusTransitions: seq<(string, seq<string>)> := [
    ("Prospect", ["Confirmed Customer", "Account Under Review", "Account Closed"]),
    ("Confirmed Customer", ["Credit Approved", "Account Under Review", "Account Closed"]),
    ("Account Under Review", ["Confirmed Customer", "Credit Approved", "Account Closed"]),
    ("Credit Approved", ["Account Closed"]),
    ("Account Closed", [])
  ]

  /** Whether a customer in `from` may move to `to`. */
  predicate CanTransition(from: string, to: string) {
    var targets := Lookup(StatusTransitions, from);
    targets.Some? && to in targets.value
  }

  /** 'Account Closed' is terminal. */
  lemma AccountClosedTerminal(to: string)
    ensures !CanTransition("Account Closed", to)
  {
    assert Lookup(StatusTransitions, "Account Closed") == Some([]);
  }

  /** 'Credit Approved' may only close the account. */
  lemma CreditApprovedOnlyCloses(to: string)
    ensures CanTransition("Credit Approved", to) <==> to == "Account Closed"
  {
    assert Lookup(StatusTransitions, "Credit Approved") == Some(["Account Closed"]);
  }

  /** The table has one entry per status, in enum order, no status lists
    * itself, and every target is a status of the enum. */
  lemma TransitionsWellFormed()
    ensures Keys(StatusTransitions) == CustomerStatuses
    ensures forall i, t :: 0 <= i < |StatusTransitions| && t in StatusTransitions[i].1 ==>
      t in CustomerStatuses && t != StatusTransitions[i].0
  {
    // The five names have five different lengths.
    assert |CustomerStatuses[0]| == 8 && |CustomerStatuses[1]| == 18 && |CustomerStatuses[2]| == 20;
    assert |CustomerStatuses[3]| == 15 && |CustomerStatuses[4]| == 14;
  }

  /** No transition goes from a status to itself. */
  lemma NoSelfTransition(s: string)
    ensures !CanTransition(s, s)
  {
    TransitionsWellFormed();
    if Lookup(StatusTransitions, s).Some? {
      LookupAt(StatusTransitions, s);
    }
  }

  /** A key found by Lookup sits at some position of the table. */
  lemma {:induction false} LookupAt<V>(r: seq<(string, V)>, key: string)
    requires Lookup(r, key).Some?
    ensures exists i :: 0 <= i < |r| && r[i].0 == key && r[i].1 == Lookup(r, key).value
  {
    if r[0].0 != key {
      LookupAt(r[1..], key);
      var i :| 0 <= i < |r[1..]| && r[1..][i].0 == key && r[1..][i].1 == Lookup(r[1..], key).value;
      assert r[i + 1] == r[1..][i];
    }
  }

  // ---------------------------------------------------------------------
  // Approval workflow

  /** The approvalStatus enum. */
  const ApprovalStatuses: seq<string> :=
    ["Pending", "Credit App Required", "References Check", "Payment History Review", "Approved", "Rejected"]

  /** approvalWorkflow: the next step, None at a terminal status. */
  const ApprovalWorkflow: seq<(string, Option<string>)> := [
    ("Pending", Some("Credit App Required")),
    ("Credit App Required", Some("References Check")),
    ("References Check", Some("Payment History Review")),
    ("Payment History Review", Some("Approved")),
    ("Approved", None),
    ("Rejected", None)
  ]

  /** The status after `n` steps of the workflow from `s`; None once a step
    * is missing (a terminal or an unknown status). */
  function Advance(s: string, n: nat): Option<string>
    decreases n
  {
    if n == 0 then Some(s)
    else
      var step := Lookup(ApprovalWorkflow, s);
      if step.Some? && step.value.Some? then Advance(step.value.value, n - 1) else None
  }

  /** 'Approved' and 'Rejected' are terminal. */
  lemma ApprovalTerminals()
    ensures Lookup(ApprovalWorkflow, "Approved") == Some(None)
    ensures Lookup(ApprovalWorkflow, "Rejected") == Some(None)
  {
    assert "Approved"[0] != "Rejected"[0];
  }

  /** 'Pending' reaches 'Approved' in exactly four steps, and no earlier. */
  lemma PendingApprovedInFour()
    ensures Advance("Pending", 4) == Some("Approved")
    ensures forall n :: n < 4 ==> Advance("Pending", n) != Some("Approved")
  {
    assert Lookup(ApprovalWorkflow, "Pending") == Some(Some("Credit App Required"));
    assert Lookup(ApprovalWorkflow, "Credit App Required") == Some(Some("References Check"));
    assert Lookup(ApprovalWorkflow, "References Check") == Some(Some("Payment History Review"));
    assert Lookup(ApprovalWorkflow, "Payment History Review") == Some(Some("Approved"));
    assert Advance("Payment History Review", 1) == Some("Approved");
    assert Advance("References Check", 2) == Some("Approved");
    assert Advance("Credit App Required", 3) == Some("Approved");
  }

  /** The workflow has one entry per approval status, in enum order. */
  lemma WorkflowCoversStatuses()
    ensures Keys(ApprovalWorkflow) == ApprovalStatuses
  {}
}
