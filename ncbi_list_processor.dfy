/** The list command: the ids of a key column of a tab-delimited file select the
    ENTREZ records to report on. The non-blank ids are collected into an ordered
    set and sent to NCBI in batches of at most the batch size. */
module NcbiListProcessor {
  import opened Util
  import opened SortedSets

  const DEFAULT_COLUMN: string := "1"
  const DEFAULT_KEY: string := "ACCN"

  /** The error for a key field the table does not have. */
  function KeyFieldError(filterName: string): string {
    "Invalid key field name " + filterName + "."
  }

  /** A list query: the table, the key field and the ids to look up. */
  datatype ListQuery = ListQuery(table: string, field: string, ids: seq<string>)

  /** The key set the column values build: each non-blank value added, in input
      order, to an ordered set. */
  function KeySet(column: seq<string>): (r: seq<string>)
    ensures StrictlySorted(r)
  {
    if column == [] then []
    else
      var prev := KeySet(column[..|column| - 1]);
      var key := column[|column| - 1];
      if IsBlank(key) then prev else Insert(prev, key)
  }

  /** The key set holds exactly the non-blank values of the column. */
  lemma {:induction false} KeySetMembers(column: seq<string>)
    ensures forall y :: y in KeySet(column) <==> y in column && !IsBlank(y)
  {
    if column != [] {
      var init := column[..|column| - 1];
      KeySetMembers(init);
      assert column == init + [column[|column| - 1]];
    }
  }

  /** `keyTotal` counts the distinct non-blank values. */
  lemma KeySetSize(column: seq<string>)
    ensures |KeySet(column)| == |set y | y in column && !IsBlank(y)|
  {
    KeySetMembers(column);
    SortedCardinality(KeySet(column));
    assert (set y | y in KeySet(column)) == (set y | y in column && !IsBlank(y));
  }

  /** The batches from a key set cover it in order, each holding 1 to `n` keys and
      all but the last exactly `n`. */
  lemma QueriesPartitionKeys(column: seq<string>, n: nat)
    requires n >= 1
    ensures Flatten(Chunks(KeySet(column), n)) == KeySet(column)
    ensures forall i :: 0 <= i < |Chunks(KeySet(column), n)| ==> 1 <= |Chunks(KeySet(column), n)[i]| <= n
    ensures forall i :: 0 <= i < |Chunks(KeySet(column), n)| - 1 ==> |Chunks(KeySet(column), n)[i]| == n
  {
    ChunksFlatten(KeySet(column), n);
    ChunksSizes(KeySet(column), n);
  }

  class ListProcessor {
    /** The table the queries go to. */
    const table: string
    /** The key field of the queries (`--key`). */
    const filterName: string
    /** The number of ids per query, checked to be at least 1 by the base processor. */
    const batchSize: int
    /** The key set, in order. */
    var keys: seq<string>
    /** How far the key iterator has got. */
    var pos: nat
    var keyTotal: int

    ghost predicate Valid()
      reads this
    {
      StrictlySorted(keys) && pos <= |keys|
    }

    constructor (tableName: string, key: string, size: int)
      ensures Valid() && table == tableName && filterName == key && batchSize == size
      ensures keys == [] && pos == 0 && keyTotal == 0
    {
      table := tableName;
      filterName := key;
      batchSize := size;
      keys := [];
      pos := 0;
      keyTotal := 0;
    }

    /** `validateNcbiProcessParms`: the key set is read from the key column and the
        iterator put at its start; then a key field the table lacks is an error. */
    method Validate(column: seq<string>, fieldNames: set<string>) returns (r: Outcome)
      modifies this`keys, this`pos, this`keyTotal
      ensures Valid() && keys == KeySet(column) && pos == 0 && keyTotal == |keys|
      ensures r.Pass? <==> filterName in fieldNames
      ensures r.Fail? ==> r.error == ParseFailure(KeyFieldError(filterName))
    {
      var keySet: seq<string> := [];
      var i := 0;
      while i < |column|
        invariant 0 <= i <= |column| && keySet == KeySet(column[..i])
      {
        var key := column[i];
        assert column[..i + 1][..i] == column[..i];
        if !IsBlank(key) {
          keySet := Insert(keySet, key);
        }
        i := i + 1;
      }
      assert column[..i] == column;
      keys := keySet;
      keyTotal := |keys|;
      pos := 0;
      if filterName !in fieldNames {
        return Fail(ParseFailure(KeyFieldError(filterName)));
      }
      r := Pass;
    }

    /** `hasNext`: some key is still unread. */
    predicate HasNext()
      reads this
    {
      pos < |keys|
    }

    /** `next`: the following keys, up to a batch, in order; while keys remain this
        is the next batch of the remaining keys. */
    method Next() returns (query: ListQuery)
      requires Valid() && batchSize >= 1
      modifies this`pos
      ensures Valid() && query.table == table && query.field == filterName
      ensures pos == if old(pos) + batchSize <= |keys| then old(pos) + batchSize else |keys|
      ensures query.ids == keys[old(pos)..pos]
      ensures old(pos) < |keys| ==> Chunks(keys[old(pos)..], batchSize) == [query.ids] + Chunks(keys[pos..], batchSize)
    {
      var ids: seq<string> := [];
      while pos < |keys| && |ids| < batchSize
        invariant old(pos) <= pos <= |keys| && ids == keys[old(pos)..pos] && |ids| <= batchSize
      {
        ids := ids + [keys[pos]];
        pos := pos + 1;
      }
      if old(pos) < |keys| {
        ChunksAt(keys, old(pos), pos, batchSize);
      }
      query := ListQuery(table, filterName, ids);
    }

    /** The query loop of the base processor (`while (hasNext()) next()`): the id
        lists of its queries are the batches of the remaining keys, and the loop
        stops exactly when every key is read. */
    method Queries() returns (batches: seq<seq<string>>)
      requires Valid() && batchSize >= 1
      modifies this`pos
      ensures Valid() && pos == |keys| && !HasNext()
      ensures batches == Chunks(old(keys[pos..]), batchSize)
    {
      batches := [];
      while HasNext()
        invariant Valid()
        invariant batches + Chunks(keys[pos..], batchSize) == Chunks(old(keys[pos..]), batchSize)
        decreases |keys| - pos
      {
        ghost var rest := Chunks(keys[pos..], batchSize);
        var query := Next();
        SnocBatch(batches, query.ids, Chunks(keys[pos..], batchSize), rest);
        batches := batches + [query.ids];
      }
      assert keys[pos..] == [];
    }
  }

  lemma SnocBatch(batches: seq<seq<string>>, ids: seq<string>, after: seq<seq<string>>, before: seq<seq<string>>)
    requires before == [ids] + after
    ensures batches + before == (batches + [ids]) + after
  {
  }
}
