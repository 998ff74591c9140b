/**
 * `calculateTotal`: the sum of the parsed amounts of ALL rows (valid or not,
 * negative or not). `Number.parseFloat` is not modelled: it is the parameter
 * `parse`, which yields `None` where parseFloat yields NaN, and amounts are
 * exact reals rather than binary floating point.
 */
module Totals {
  import opened Wrappers
  import opened Sequences
  import opened Recipients

  type Parser = string -> Option<real>

  /** `parsed || 0`: NaN (no number) and zero both count as 0. */
  function Contribution(parsed: Option<real>): (c: real)
    ensures parsed.None? ==> c == 0.0
    ensures parsed.Some? ==> c == parsed.value
  {
    if parsed.Some? && parsed.value != 0.0 then parsed.value else 0.0
  }

  /** `rs.reduce((sum, r) => sum + Contribution(parse(r.amount)), acc)`, folding from the left. */
  function ReduceTotal(parse: Parser, rs: seq<Recipient>, acc: real): real
    decreases |rs|
  {
    if rs == [] then acc else ReduceTotal(parse, rs[1..], acc + Contribution(parse(rs[0].amount)))
  }

  /** Reference definition: the sum over all rows of what each row's amount contributes. */
  function SumAmounts(parse: Parser, rs: seq<Recipient>): real
    decreases |rs|
  {
    if rs == [] then 0.0 else Contribution(parse(rs[0].amount)) + SumAmounts(parse, rs[1..])
  }

  /** The left fold the page runs computes the reference sum, offset by its seed. */
  lemma {:induction false} ReduceIsSum(parse: Parser, rs: seq<Recipient>, acc: real)
    ensures ReduceTotal(parse, rs, acc) == acc + SumAmounts(parse, rs)
    decreases |rs|
  {
    if rs != [] {
      ReduceIsSum(parse, rs[1..], acc + Contribution(parse(rs[0].amount)));
    }
  }

  /** The page's total, from a seed of 0. */
  function CalculateTotal(parse: Parser, rs: seq<Recipient>): (t: real)
    ensures t == SumAmounts(parse, rs)
  {
    ReduceIsSum(parse, rs, 0.0);
    ReduceTotal(parse, rs, 0.0)
  }

  lemma {:induction false} SumAppend(parse: Parser, a: seq<Recipient>, b: seq<Recipient>)
    ensures SumAmounts(parse, a + b) == SumAmounts(parse, a) + SumAmounts(parse, b)
    decreases |a|
  {
    if a == [] {
      assert a + b == b;
    } else {
      assert (a + b)[1..] == a[1..] + b;
      SumAppend(parse, a[1..], b);
    }
  }

  /** Two lists whose amounts agree row by row have the same total. */
  lemma {:induction false} SumDependsOnlyOnAmounts(parse: Parser, a: seq<Recipient>, b: seq<Recipient>)
    requires |a| == |b|
    requires forall i :: 0 <= i < |a| ==> a[i].amount == b[i].amount
    ensures SumAmounts(parse, a) == SumAmounts(parse, b)
    decreases |a|
  {
    if a != [] {
      SumDependsOnlyOnAmounts(parse, a[1..], b[1..]);
    }
  }

  /** A total splits into the rows a predicate keeps and the rows it drops. */
  lemma {:induction false} SumSplitsByFilter(parse: Parser, p: Recipient -> bool, rs: seq<Recipient>)
    ensures SumAmounts(parse, Filter(p, rs)) + SumAmounts(parse, Filter(x => !p(x), rs)) == SumAmounts(parse, rs)
    decreases |rs|
  {
    if rs != [] {
      SumSplitsByFilter(parse, p, rs[1..]);
    }
  }

  /** The total of the initial list is 0, as parseFloat("") is NaN. */
  lemma InitialTotalIsZero(parse: Parser)
    requires parse("") == None
    ensures CalculateTotal(parse, InitialRecipients()) == 0.0
  {
  }

  /** Adding a blank row leaves the total unchanged. */
  lemma AddKeepsTotal(parse: Parser, rs: seq<Recipient>)
    requires parse("") == None
    ensures CalculateTotal(parse, Add(rs)) == CalculateTotal(parse, rs)
  {
    var r := Add(rs);
    assert r == rs + [r[|rs|]];
    SumAppend(parse, rs, [r[|rs|]]);
  }

  /** Removing rows takes exactly the amounts of the rows carrying that id off the total. */
  lemma RemoveTotal(parse: Parser, rs: seq<Recipient>, id: string)
    requires |rs| > 1
    ensures CalculateTotal(parse, Remove(rs, id))
         == CalculateTotal(parse, rs) - SumAmounts(parse, WithId(rs, id))
  {
    var p := (x: Recipient) => x.id == id;
    SumSplitsByFilter(parse, p, rs);
    assert Filter(x => !p(x), rs) == Remove(rs, id) by {
      FilterSameSelection((x: Recipient) => !p(x), (x: Recipient) => x.id != id, rs);
    }
  }

  lemma {:induction false} FilterSameSelection(p: Recipient -> bool, q: Recipient -> bool, rs: seq<Recipient>)
    requires forall x :: p(x) == q(x)
    ensures Filter(p, rs) == Filter(q, rs)
    decreases |rs|
  {
    if rs != [] {
      FilterSameSelection(p, q, rs[1..]);
    }
  }

  /** Editing an address never changes the total. */
  lemma UpdateAddressKeepsTotal(parse: Parser, rs: seq<Recipient>, id: string, value: string)
    ensures CalculateTotal(parse, Update(rs, id, Address, value)) == CalculateTotal(parse, rs)
  {
    SumDependsOnlyOnAmounts(parse, Update(rs, id, Address, value), rs);
  }

  /** `n` copies of `c` added up. */
  function Repeated(n: nat, c: real): real {
    if n == 0 then 0.0 else c + Repeated(n - 1, c)
  }

  /**
   * Editing the amount under `id` replaces what every row carrying `id`
   * contributed by what the new text contributes.
   */
  lemma {:induction false} UpdateAmountTotal(parse: Parser, rs: seq<Recipient>, id: string, value: string)
    ensures SumAmounts(parse, Update(rs, id, Amount, value))
         == SumAmounts(parse, rs) - SumAmounts(parse, WithId(rs, id))
            + Repeated(|WithId(rs, id)|, Contribution(parse(value)))
    decreases |rs|
  {
    if rs != [] {
      var u := Update(rs, id, Amount, value);
      var rest := WithId(rs[1..], id);
      var c := Contribution(parse(value));
      assert u[1..] == Update(rs[1..], id, Amount, value);
      UpdateAmountTotal(parse, rs[1..], id, value);
      assert SumAmounts(parse, u) == Contribution(parse(u[0].amount)) + SumAmounts(parse, u[1..]);
      if rs[0].id == id {
        assert u[0].amount == value;
        assert WithId(rs, id) == [rs[0]] + rest;
        assert ([rs[0]] + rest)[1..] == rest;
        assert SumAmounts(parse, WithId(rs, id)) == Contribution(parse(rs[0].amount)) + SumAmounts(parse, rest);
        assert |WithId(rs, id)| == |rest| + 1;
      } else {
        assert u[0] == rs[0];
        assert WithId(rs, id) == rest;
      }
    }
  }

  /**
   * The total is not restricted to the rows a payment is sent to: a row with
   * no address is not valid, yet its amount is counted.
   */
  lemma TotalCountsInvalidRows(parse: Parser)
    requires parse("2") == Some(2.0)
    ensures ValidRecipients([Recipient("1", "", "2")]) == []
    ensures CalculateTotal(parse, [Recipient("1", "", "2")]) == 2.0
  {
    var rs := [Recipient("1", "", "2")];
    assert !IsValid(rs[0]);
  }

  /** Negative amounts are not excluded: they lower the total. */
  lemma TotalCountsNegativeAmounts(parse: Parser)
    requires parse("-1") == Some(-1.0)
    ensures IsValid(Recipient("1", "0xabc", "-1"))
    ensures CalculateTotal(parse, [Recipient("1", "0xabc", "-1")]) == -1.0
  {
    NotBlank("0xabc");
    NotBlank("-1");
  }

  lemma NotBlank(s: string)
    requires s != [] && !JsStrings.IsWhitespace(s[0])
    ensures JsStrings.Trim(s) != ""
  {
  }
}
