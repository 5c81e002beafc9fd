/** Priority tables: ordered lists of (substring patterns, result) rows read
    top to bottom, the first row with a pattern in the text deciding. The
    scraper's issuer, registrar and known-site rules are all of this shape. */
module Lookup {
  import opened Text

  /** One row: any of `patterns` occurring in the text selects `result`. */
  datatype Row<L> = Row(patterns: seq<string>, result: L)

  predicate Hits<L>(row: Row<L>, text: string) {
    ContainsAny(text, row.patterns)
  }

  /** The result of the first row that hits, `fallback` when none does. */
  function Classify<L>(table: seq<Row<L>>, text: string, fallback: L): L
  {
    if table == [] then fallback
    else if Hits(table[0], text) then table[0].result
    else Classify(table[1..], text, fallback)
  }

  /** `Classify` returns the result of the first row that hits (row `k`), and
      the fallback when no row does (`k == |table|`). */
  lemma {:induction false} ClassifyFirstMatch<L>(table: seq<Row<L>>, text: string, fallback: L, k: nat)
    requires k <= |table|
    requires forall j :: 0 <= j < k ==> !Hits(table[j], text)
    requires k < |table| ==> Hits(table[k], text)
    ensures Classify(table, text, fallback) == if k < |table| then table[k].result else fallback
    decreases k
  {
    if k > 0 {
      assert !Hits(table[0], text);
      ClassifyFirstMatch(table[1..], text, fallback, k - 1);
    }
  }

  /** The index of the first row that hits, `None` when no row does. */
  function FirstHit<L>(table: seq<Row<L>>, text: string): (r: Option<nat>)
    ensures r.Some? ==> r.value < |table| && Hits(table[r.value], text) &&
                        forall j :: 0 <= j < r.value ==> !Hits(table[j], text)
    ensures r.None? ==> forall j :: 0 <= j < |table| ==> !Hits(table[j], text)
  {
    if table == [] then None
    else if Hits(table[0], text) then Some(0)
    else match FirstHit(table[1..], text)
      case Some(k) => Some(k + 1)
      case None => None
  }

  /** The scan for the first row that hits, stopping there. */
  method FindFirstHit<L>(table: seq<Row<L>>, text: string) returns (r: Option<nat>)
    ensures r == FirstHit(table, text)
  {
    r := None;
    var i := 0;
    while i < |table|
      invariant 0 <= i <= |table|
      invariant forall j :: 0 <= j < i ==> !Hits(table[j], text)
    {
      if Hits(table[i], text) {
        r := Some(i);
        break;
      }
      i := i + 1;
    }
  }
}
