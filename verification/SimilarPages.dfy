/**
 What near duplicates are, pair by pair: the definition that the search over an inverted index must meet.
 */
module SimilarPages {
  import opened Basics
  import opened ConnectedGroups

  type Shingle = seq<string>

  /** A page: whether it can be compared, the hash of its main content if it has one, and its tokens. */
  datatype Row = Row(comparable: bool, hash: string, tokens: seq<string>)

  ghost function FiveFrom(tokens: seq<string>, k: nat): Shingle
    requires k + 5 <= |tokens|
  {
    [tokens[k], tokens[k + 1], tokens[k + 2], tokens[k + 3], tokens[k + 4]]
  }

  /** Every run of five tokens. */
  ghost function FiveGrams(tokens: seq<string>): set<Shingle> {
    set k: nat | k + 5 <= |tokens| :: FiveFrom(tokens, k)
  }

  /** The pages that take part: comparable ones, not excluded, with at least five tokens. */
  ghost function Compared(rows: seq<Row>, excluded: set<nat>): set<nat> {
    set i: nat | i < |rows| && i !in excluded && rows[i].comparable && |rows[i].tokens| >= 5
  }

  ghost function Holders(rows: seq<Row>, excluded: set<nat>, s: Shingle): set<nat> {
    set i | i in Compared(rows, excluded) && s in FiveGrams(rows[i].tokens)
  }

  /** Held by at most ten pages, or by at most a tenth of all. */
  ghost predicate Uncommon(rows: seq<Row>, excluded: set<nat>, s: Shingle) {
    |Holders(rows, excluded, s)| <= 10 || |Holders(rows, excluded, s)| <= |Compared(rows, excluded)| / 10
  }

  /** What two pages share and what counts. */
  ghost function Counted(rows: seq<Row>, excluded: set<nat>, left: nat, right: nat): set<Shingle>
    requires left < |rows| && right < |rows|
  {
    set s | s in FiveGrams(rows[left].tokens) && s in FiveGrams(rows[right].tokens) && Uncommon(rows, excluded, s)
  }

  /** At least three quarters as many in one page as in the other, and 85% of the fewer shared. */
  ghost predicate Enough(left: nat, right: nat, shared: nat) {
    4 * Min(left, right) >= 3 * Max(left, right) && 20 * shared >= 17 * Min(left, right)
  }

  /** The pair is reported, with its score. */
  ghost predicate Overlapping(rows: seq<Row>, excluded: set<nat>, e: Edge) {
    && e.left < e.right && e.left in Compared(rows, excluded) && e.right in Compared(rows, excluded)
    && var left, right := |FiveGrams(rows[e.left].tokens)|, |FiveGrams(rows[e.right].tokens)|;
       var shared := |Counted(rows, excluded, e.left, e.right)|;
       Enough(left, right, shared) && e.score * Min(left, right) as real == shared as real
  }

  /** The pair is similar, whether or not what it shares is common elsewhere. */
  ghost predicate Alike(rows: seq<Row>, excluded: set<nat>, a: nat, b: nat) {
    && a < b && a in Compared(rows, excluded) && b in Compared(rows, excluded)
    && var left, right := FiveGrams(rows[a].tokens), FiveGrams(rows[b].tokens);
       Enough(|left|, |right|, |left * right|)
  }
}
