/**
 * The recipient list of the batch-payment page: the entries, the three edits
 * the page applies to the list, and the filter that picks the entries a
 * payment is sent to. Every operation returns the new list, as the page
 * replaces its list state wholesale with the result.
 */
module Recipients {
  import opened JsStrings
  import opened Sequences

  /** One row of the form: all three fields are free text. */
  datatype Recipient = Recipient(id: string, address: string, amount: string)

  /** The two editable fields of a row. */
  datatype Field = Address | Amount

  /** The list the page starts with: one blank row named "1". */
  function InitialRecipients(): seq<Recipient> {
    [Recipient("1", "", "")]
  }

  /**
   * `addRecipient`: appends a blank row whose id is the decimal numeral of
   * the new length. Nothing checks that this id is not already in use.
   */
  function Add(rs: seq<Recipient>): (r: seq<Recipient>)
    ensures |r| == |rs| + 1 && r[..|rs|] == rs
    ensures r[|rs|].address == "" && r[|rs|].amount == ""
    ensures r[|rs|].id == NatToString(|rs| + 1)
    ensures IsNumeral(r[|rs|].id) && DecimalValue(r[|rs|].id) == |rs| + 1
  {
    DecimalValueOfNatToString(|rs| + 1);
    rs + [Recipient(NatToString(|rs| + 1), "", "")]
  }

  /** The rows whose id differs from `id`, in their original order. */
  function WithoutId(rs: seq<Recipient>, id: string): seq<Recipient> {
    Filter((x: Recipient) => x.id != id, rs)
  }

  /** The rows carrying `id`, in their original order. */
  function WithId(rs: seq<Recipient>, id: string): seq<Recipient> {
    Filter((x: Recipient) => x.id == id, rs)
  }

  /**
   * `removeRecipient`: when more than one row is left, drops EVERY row
   * carrying `id` and keeps the others in order; with one row (or none) left
   * the list is returned as it is.
   */
  function Remove(rs: seq<Recipient>, id: string): (r: seq<Recipient>)
    ensures |rs| <= 1 ==> r == rs
    ensures |rs| > 1 ==>
      && IsSubsequence(r, rs)
      && (forall i :: 0 <= i < |r| ==> r[i].id != id)
      && (forall x :: multiset(r)[x] == if x.id != id then multiset(rs)[x] else 0)
  {
    if |rs| > 1 then WithoutId(rs, id) else rs
  }

  /** `{ ...r, [field]: value }` */
  function SetField(r: Recipient, field: Field, value: string): Recipient {
    match field
    case Address => r.(address := value)
    case Amount => r.(amount := value)
  }

  /**
   * `updateRecipient`: every row carrying `id` gets `field` set to `value`;
   * ids, order, the other field and every other row stay as they were.
   */
  function Update(rs: seq<Recipient>, id: string, field: Field, value: string): (r: seq<Recipient>)
    ensures |r| == |rs|
    ensures forall i :: 0 <= i < |rs| ==> r[i].id == rs[i].id
    ensures forall i :: 0 <= i < |rs| && rs[i].id != id ==> r[i] == rs[i]
    ensures forall i :: 0 <= i < |rs| && rs[i].id == id ==>
      match field
      case Address => r[i].address == value && r[i].amount == rs[i].amount
      case Amount => r[i].amount == value && r[i].address == rs[i].address
  {
    seq(|rs|, i requires 0 <= i < |rs| => if rs[i].id == id then SetField(rs[i], field, value) else rs[i])
  }

  /** A row is sent to when neither its address nor its amount is blank after trimming. */
  predicate IsValid(r: Recipient) {
    Trim(r.address) != "" && Trim(r.amount) != ""
  }

  /**
   * `validRecipients`: exactly the rows whose address and amount each hold a
   * non-white-space character, in list order.
   */
  function ValidRecipients(rs: seq<Recipient>): (r: seq<Recipient>)
    ensures |r| <= |rs| && IsSubsequence(r, rs)
    ensures forall i :: 0 <= i < |r| ==> IsValid(r[i])
    ensures forall x :: multiset(r)[x] == if IsValid(x) then multiset(rs)[x] else 0
    ensures r == [] <==> forall i :: 0 <= i < |rs| ==> !IsValid(rs[i])
  {
    FilterEmptyIff(IsValid, rs);
    Filter(IsValid, rs)
  }

  /** The page starts with one blank row named "1", which is not yet valid. */
  lemma InitialRecipientsShape()
    ensures |InitialRecipients()| == 1
    ensures InitialRecipients()[0] == Recipient(NatToString(1), "", "")
    ensures ValidRecipients(InitialRecipients()) == []
  {
  }

  /** Removing an id no row carries leaves the list as it is. */
  lemma RemoveAbsentIdKeepsList(rs: seq<Recipient>, id: string)
    requires forall i :: 0 <= i < |rs| ==> rs[i].id != id
    ensures Remove(rs, id) == rs
  {
    FilterKeepsAll((x: Recipient) => x.id != id, rs);
  }

  /** Updating an id no row carries leaves the list as it is. */
  lemma UpdateAbsentIdKeepsList(rs: seq<Recipient>, id: string, field: Field, value: string)
    requires forall i :: 0 <= i < |rs| ==> rs[i].id != id
    ensures Update(rs, id, field, value) == rs
  {
  }

  /** Repeating an update changes nothing more. */
  lemma UpdateIdempotent(rs: seq<Recipient>, id: string, field: Field, value: string)
    ensures Update(Update(rs, id, field, value), id, field, value) == Update(rs, id, field, value)
  {
  }

  /** An edit a user can make on the page. */
  datatype Action = AddEntry | RemoveEntry(id: string) | UpdateEntry(id: string, field: Field, value: string)

  function Step(rs: seq<Recipient>, a: Action): seq<Recipient> {
    match a
    case AddEntry => Add(rs)
    case RemoveEntry(id) => Remove(rs, id)
    case UpdateEntry(id, field, value) => Update(rs, id, field, value)
  }

  /** The list after a sequence of edits. */
  function Run(rs: seq<Recipient>, actions: seq<Action>): seq<Recipient>
    decreases |actions|
  {
    if actions == [] then rs else Run(Step(rs, actions[0]), actions[1..])
  }

  /** No two rows share an id. */
  predicate DistinctIds(rs: seq<Recipient>) {
    forall i, j :: 0 <= i < j < |rs| ==> rs[i].id != rs[j].id
  }

  /** Row `i` is named by the numeral of `i + 1`, as in a list that only ever grew. */
  predicate CanonicalIds(rs: seq<Recipient>) {
    forall i :: 0 <= i < |rs| ==> rs[i].id == NatToString(i + 1)
  }

  lemma CanonicalIdsAreDistinct(rs: seq<Recipient>)
    requires CanonicalIds(rs)
    ensures DistinctIds(rs)
  {
    forall i, j | 0 <= i < j < |rs|
      ensures rs[i].id != rs[j].id
    {
      if rs[i].id == rs[j].id {
        NatToStringInjective(i + 1, j + 1);
      }
    }
  }

  /** As long as nothing is removed, the ids stay "1", "2", … and so stay distinct. */
  lemma {:induction false} RunWithoutRemoveKeepsCanonicalIds(rs: seq<Recipient>, actions: seq<Action>)
    requires CanonicalIds(rs)
    requires forall k :: 0 <= k < |actions| ==> !actions[k].RemoveEntry?
    ensures CanonicalIds(Run(rs, actions)) && DistinctIds(Run(rs, actions))
    ensures |Run(rs, actions)| >= |rs|
    decreases |actions|
  {
    if actions == [] {
      CanonicalIdsAreDistinct(rs);
    } else {
      var next := Step(rs, actions[0]);
      assert CanonicalIds(next);
      RunWithoutRemoveKeepsCanonicalIds(next, actions[1..]);
    }
  }

  /** When no two rows share an id, filtering out one id drops at most one row. */
  lemma {:induction false} WithoutIdDropsAtMostOne(rs: seq<Recipient>, id: string)
    requires DistinctIds(rs)
    ensures |WithoutId(rs, id)| >= |rs| - 1
  {
    if rs != [] {
      var rest := rs[1..];
      assert DistinctIds(rest);
      assert WithoutId(rs, id) == (if rs[0].id != id then [rs[0]] else []) + WithoutId(rest, id);
      if rs[0].id == id {
        FilterKeepsAll((x: Recipient) => x.id != id, rest);
      } else {
        WithoutIdDropsAtMostOne(rest, id);
      }
    }
  }

  /** Removing a row (if more than one is left) keeps the ids distinct. */
  lemma RemoveKeepsDistinctIds(rs: seq<Recipient>, id: string)
    requires DistinctIds(rs)
    ensures DistinctIds(Remove(rs, id))
  {
    var r := Remove(rs, id);
    if |rs| > 1 {
      forall i, j | 0 <= i < j < |r| ensures r[i].id != r[j].id {
        SubsequenceKeepsDistinctIds(r, rs);
      }
    }
  }

  lemma {:induction false} SubsequenceKeepsDistinctIds(a: seq<Recipient>, b: seq<Recipient>)
    requires IsSubsequence(a, b) && DistinctIds(b)
    ensures DistinctIds(a)
    decreases |b|
  {
    if a != [] && b != [] {
      assert DistinctIds(b[1..]);
      if a[0] == b[0] {
        SubsequenceKeepsDistinctIds(a[1..], b[1..]);
        SubsequenceElements(a[1..], b[1..]);
        forall j | 0 < j < |a| ensures a[0].id != a[j].id {
          assert a[j] == a[1..][j - 1];
          var k :| 0 <= k < |b[1..]| && a[j] == b[1..][k];
          assert b[k + 1] == a[j];
        }
      } else {
        SubsequenceKeepsDistinctIds(a, b[1..]);
      }
    }
  }

  lemma {:induction false} SubsequenceElements(a: seq<Recipient>, b: seq<Recipient>)
    requires IsSubsequence(a, b)
    ensures forall i :: 0 <= i < |a| ==> exists k :: 0 <= k < |b| && a[i] == b[k]
    decreases |b|
  {
    if a != [] && b != [] {
      if a[0] == b[0] {
        SubsequenceElements(a[1..], b[1..]);
        forall i | 0 < i < |a| ensures exists k :: 0 <= k < |b| && a[i] == b[k] {
          assert a[i] == a[1..][i - 1];
          var k :| 0 <= k < |b[1..]| && a[1..][i - 1] == b[1..][k];
          assert a[i] == b[k + 1];
        }
      } else {
        SubsequenceElements(a, b[1..]);
        forall i | 0 <= i < |a| ensures exists k :: 0 <= k < |b| && a[i] == b[k] {
          var k :| 0 <= k < |b[1..]| && a[i] == b[1..][k];
          assert a[i] == b[k + 1];
        }
      }
    }
  }

  /** Adding, removing "1", adding again: the new row repeats the id "2" of the surviving row. */
  lemma IdsCanCollide()
    ensures Run(InitialRecipients(), [AddEntry, RemoveEntry("1"), AddEntry])
         == [Recipient("2", "", ""), Recipient("2", "", "")]
  {
  }

  /**
   * Removing the repeated id "2" from that two-row list passes the "more
   * than one row" guard and then drops both rows: the list becomes empty.
   */
  lemma RunCanEmptyList()
    ensures Run(InitialRecipients(), [AddEntry, RemoveEntry("1"), AddEntry, RemoveEntry("2")]) == []
  {
  }

  // ---------------------------------------------------------------------
  // Corrected naming of new rows. The page names a new row after the new
  // length; naming it one past the largest numeric id in use instead keeps
  // the ids distinct, and with distinct ids the "more than one row" guard
  // of Remove is enough to keep the list from ever becoming empty.
  // ---------------------------------------------------------------------

  /** The number an id denotes, 0 for an id that is not a numeral. */
  function IdValue(id: string): nat {
    if IsNumeral(id) then DecimalValue(id) else 0
  }

  /** The largest numeric id in use (0 for no rows). */
  function MaxIdValue(rs: seq<Recipient>): (m: nat)
    ensures forall i :: 0 <= i < |rs| ==> IdValue(rs[i].id) <= m
    ensures rs != [] ==> exists i :: 0 <= i < |rs| && IdValue(rs[i].id) == m
  {
    if rs == [] then 0
    else
      var m := MaxIdValue(rs[1..]);
      assert forall i :: 1 <= i < |rs| ==> rs[i] == rs[1..][i - 1];
      if IdValue(rs[0].id) > m then IdValue(rs[0].id) else m
  }

  /** Corrected `addRecipient`: appends a blank row whose id no existing row carries. */
  function AddFresh(rs: seq<Recipient>): (r: seq<Recipient>)
    ensures |r| == |rs| + 1 && r[..|rs|] == rs
    ensures r[|rs|].address == "" && r[|rs|].amount == ""
    ensures forall i :: 0 <= i < |rs| ==> rs[i].id != r[|rs|].id
  {
    var m := MaxIdValue(rs);
    DecimalValueOfNatToString(m + 1);
    rs + [Recipient(NatToString(m + 1), "", "")]
  }

  function StepFixed(rs: seq<Recipient>, a: Action): seq<Recipient> {
    match a
    case AddEntry => AddFresh(rs)
    case RemoveEntry(id) => Remove(rs, id)
    case UpdateEntry(id, field, value) => Update(rs, id, field, value)
  }

  function RunFixed(rs: seq<Recipient>, actions: seq<Action>): seq<Recipient>
    decreases |actions|
  {
    if actions == [] then rs else RunFixed(StepFixed(rs, actions[0]), actions[1..])
  }

  /** With fresh ids, no sequence of edits empties the list or repeats an id. */
  lemma {:induction false} FixedRunNeverEmpty(rs: seq<Recipient>, actions: seq<Action>)
    requires rs != [] && DistinctIds(rs)
    ensures RunFixed(rs, actions) != [] && DistinctIds(RunFixed(rs, actions))
    decreases |actions|
  {
    if actions != [] {
      var next := StepFixed(rs, actions[0]);
      if actions[0].RemoveEntry? {
        RemoveKeepsDistinctIds(rs, actions[0].id);
        if |rs| > 1 {
          WithoutIdDropsAtMostOne(rs, actions[0].id);
        }
      }
      FixedRunNeverEmpty(next, actions[1..]);
    }
  }

  /** From the page's initial list, the corrected edits never empty it. */
  lemma FixedRunFromInitialNeverEmpty(actions: seq<Action>)
    ensures RunFixed(InitialRecipients(), actions) != []
  {
    FixedRunNeverEmpty(InitialRecipients(), actions);
  }
}
