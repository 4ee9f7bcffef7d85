/** The rows the ledger stores, and the facts about row identity that the
    storage layer relies on. Amounts are fixed-point with two fractional
    digits and are held as integer cents; calendar timestamps are held as
    day ordinals. The wall-clock `created_at` columns are not modelled. */
module Records {

  datatype Option<+T> = None | Some(value: T)

  /** A row of the `bank_accounts` table. */
  datatype Account = Account(id: int, name: string, accountType: string, description: Option<string>)

  /** A row of the `transactions` table. `category` is a plain string column
      that may be NULL (None) or empty. */
  datatype Txn = Txn(id: int, date: int, description: string, amount: int,
                     category: Option<string>, accountId: int)

  /** Python truthiness of an optional string: None and "" are both false. */
  predicate HasText(s: Option<string>)
  {
    s.Some? && s.value != ""
  }

  /** No value occurs twice (a UNIQUE or PRIMARY KEY column). */
  ghost predicate Distinct<T>(s: seq<T>)
  {
    forall i, j :: 0 <= i < j < |s| ==> s[i] != s[j]
  }

  /** The primary-key column of a table, given how a row carries its id. */
  function Ids<T>(s: seq<T>, key: T -> int): (ids: seq<int>)
    ensures |ids| == |s|
    ensures forall i :: 0 <= i < |s| ==> ids[i] == key(s[i])
  {
    seq(|s|, i requires 0 <= i < |s| => key(s[i]))
  }

  function AccountId(a: Account): int { a.id }

  function TxnId(t: Txn): int { t.id }

  /** The largest row id of a table, 0 for an empty table. */
  function MaxRowId(ids: seq<int>): (m: int)
    ensures 0 <= m
    ensures forall i :: 0 <= i < |ids| ==> ids[i] <= m
    ensures m == 0 || m in ids
  {
    if ids == [] then 0
    else
      var rest := MaxRowId(ids[..|ids| - 1]);
      if ids[|ids| - 1] > rest then ids[|ids| - 1] else rest
  }

  /** The id an INTEGER PRIMARY KEY column gives a new row when none is
      supplied: one more than the largest id in the table, 1 for an empty one. */
  function NextRowId(ids: seq<int>): (r: int)
    ensures 0 < r && r !in ids
    ensures ids == [] ==> r == 1
  {
    MaxRowId(ids) + 1
  }

  /** Appending a row whose id is new keeps the ids distinct. */
  lemma AppendFreshId(ids: seq<int>, id: int)
    requires Distinct(ids) && id !in ids
    ensures Distinct(ids + [id])
  {
    var s := ids + [id];
    forall i, j | 0 <= i < j < |s| ensures s[i] != s[j] {
      if j == |ids| {
        assert s[i] == ids[i];
      }
    }
  }
}
