/** The ledger VM (src/lvm/lvm-core.js): ordered rule validation
    (src/lvm/runtime/validator.js), posting templates (src/lvm/runtime/posting.js),
    then settlement. A validation rule's `eval` after substitution is the
    parameter `holds`; the settlement module is the parameter `settle`. */
module Ledger {
  import opened Wrappers

  /** The payment fields the VM reads: the amount, and the named string fields a
      posting template may refer to (`payload[entry.account]`). */
  datatype LedgerPayload = LedgerPayload(amount: int, fields: map<string, string>)

  /** A posting template: the account (a payload field name or a literal account)
      and the entry type. */
  datatype Template = Template(account: string, entryType: string)

  /** `policy.rules` of a ledger policy. */
  datatype LedgerPolicy = LedgerPolicy(validate: seq<string>, posting: seq<Template>)

  /** A posted ledger entry; `immutable` is always set. */
  datatype Entry = Entry(account: string, amount: int, entryType: string, timestamp: int, immutable: bool)

  const ValidationFailed := "Validation failed: "

  /** `validate(policy, payload)`: the rules in order, throwing on the first that
      does not hold, with its own text in the message. */
  function Validate(rules: seq<string>, payload: LedgerPayload, holds: (string, LedgerPayload) -> bool): (r: Result<()>)
    ensures r.Success? <==> forall i :: 0 <= i < |rules| ==> holds(rules[i], payload)
    ensures r.Failure? ==> exists i :: (0 <= i < |rules| && !holds(rules[i], payload) &&
      (forall j :: 0 <= j < i ==> holds(rules[j], payload)) && r.error == ValidationFailed + rules[i])
  {
    if rules == [] then Success(())
    else if !holds(rules[0], payload) then Failure(ValidationFailed + rules[0])
    else
      assert forall i :: 1 <= i < |rules| ==> rules[i] == rules[1..][i - 1];
      Validate(rules[1..], payload, holds)
  }

  /** Rules after the first failing one do not change the outcome. */
  lemma {:induction false} ValidateFirstFailureWins(a: seq<string>, b: seq<string>, payload: LedgerPayload, holds: (string, LedgerPayload) -> bool)
    requires Validate(a, payload, holds).Failure?
    ensures Validate(a + b, payload, holds) == Validate(a, payload, holds)
  {
    assert (a + b)[0] == a[0];
    if holds(a[0], payload) {
      assert (a + b)[1..] == a[1..] + b;
      ValidateFirstFailureWins(a[1..], b, payload, holds);
    }
  }

  /** `payload[entry.account] || entry.account`: a non-empty payload field of that
      name, else the template's own account. */
  function AccountFor(t: Template, payload: LedgerPayload): string {
    if t.account in payload.fields && payload.fields[t.account] != "" then payload.fields[t.account] else t.account
  }

  /** `post(policy, payload)` at clock reading `now`: one entry per template, in
      template order. */
  function Post(templates: seq<Template>, payload: LedgerPayload, now: int): (entries: seq<Entry>)
    ensures |entries| == |templates|
    ensures forall i :: 0 <= i < |templates| ==>
      && entries[i].account == AccountFor(templates[i], payload)
      && entries[i].amount == payload.amount
      && entries[i].entryType == templates[i].entryType
      && entries[i].timestamp == now
      && entries[i].immutable
  {
    if templates == [] then []
    else
      [Entry(AccountFor(templates[0], payload), payload.amount, templates[0].entryType, now, true)] +
        Post(templates[1..], payload, now)
  }

  /** Every posted entry carries the payment amount, so the entries total the
      amount times the number of templates, whatever the payload's other fields. */
  function EntriesTotal(entries: seq<Entry>): int {
    if entries == [] then 0 else entries[0].amount + EntriesTotal(entries[1..])
  }

  lemma {:induction false} PostTotal(templates: seq<Template>, payload: LedgerPayload, now: int)
    ensures EntriesTotal(Post(templates, payload, now)) == |templates| * payload.amount
  {
    if templates != [] {
      PostTotal(templates[1..], payload, now);
    }
  }

  /** What `execute` returns: the entries and the settlement. */
  datatype Execution<S> = Execution(entries: seq<Entry>, settlement: S)

  /** `execute(payload)` of a VM holding `policy`: validates, then posts, then
      settles; a validation failure propagates and nothing is posted. */
  function Execute<S>(policy: LedgerPolicy, payload: LedgerPayload, now: int,
                      holds: (string, LedgerPayload) -> bool, settle: (LedgerPolicy, LedgerPayload) -> S): (r: Result<Execution<S>>)
    ensures r.Failure? <==> Validate(policy.validate, payload, holds).Failure?
    ensures r.Failure? ==> r.error == Validate(policy.validate, payload, holds).error
    ensures r.Success? ==> |r.value.entries| == |policy.posting|
    ensures r.Success? ==> r.value.entries == Post(policy.posting, payload, now) && r.value.settlement == settle(policy, payload)
  {
    match Validate(policy.validate, payload, holds)
    case Failure(e) => Failure(e)
    case Success(_) => Success(Execution(Post(policy.posting, payload, now), settle(policy, payload)))
  }
}
