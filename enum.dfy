/** The string-backed enumeration `App\Enum\InventoryStatus`. */
module Enum {
  import opened Results

  /** The three cases; each is backed by a string equal to its own name. */
  datatype InventoryStatus = INSTOCK | LOWSTOCK | OUTOFSTOCK

  /** The backing string of a case (PHP's `->value`). */
  function Value(s: InventoryStatus): string {
    match s
    case INSTOCK => "INSTOCK"
    case LOWSTOCK => "LOWSTOCK"
    case OUTOFSTOCK => "OUTOFSTOCK"
  }

  /** Every backing string. */
  const Values: set<string> := {"INSTOCK", "LOWSTOCK", "OUTOFSTOCK"}

  /** `InventoryStatus::from`: the case backed by `v`; `None` stands for the
      `ValueError` PHP raises for any other string. Matching is exact: no
      trimming and no case folding. */
  function From(v: string): (r: Option<InventoryStatus>)
    ensures r.Some? <==> v in Values
    ensures r.Some? ==> Value(r.value) == v
  {
    if v == "INSTOCK" then Some(INSTOCK)
    else if v == "LOWSTOCK" then Some(LOWSTOCK)
    else if v == "OUTOFSTOCK" then Some(OUTOFSTOCK)
    else None
  }

  /** Parsing a case's backing string gives back that case. */
  lemma FromValue(s: InventoryStatus)
    ensures From(Value(s)) == Some(s)
  {
  }

  /** Distinct cases have distinct backing strings, and there are exactly
      three of them. */
  lemma ValuesAreDistinct(s: InventoryStatus, t: InventoryStatus)
    ensures Value(s) == Value(t) ==> s == t
    ensures Value(s) in Values && |Values| == 3
  {
    assert "INSTOCK" != "LOWSTOCK" && "LOWSTOCK" != "OUTOFSTOCK" && "INSTOCK" != "OUTOFSTOCK";
  }
}
