/**
 * The IndexedDB database `MushroomAuctionDB` of src/utils/database.ts,
 * reduced to what the loader does with it: the `auctionData` table in
 * insertion order and the `metadata` table in id order.
 */
module Database {
  import opened Wrappers
  import opened Records
  import LoaderSpec

  class CacheDb {
    var records: seq<AuctionRecord>
    var metadata: seq<DatasetMetadata>

    /** A freshly opened, empty database. */
    constructor()
      ensures records == [] && metadata == []
    {
      records := [];
      metadata := [];
    }

    /** Both tables as one value. */
    function Contents(): LoaderSpec.Db
      reads this
    {
      LoaderSpec.Db(records, metadata)
    }

    /** `metadata.orderBy("id").last()`. */
    function Last(): (m: Option<DatasetMetadata>)
      reads this
      ensures m.Some? <==> |metadata| > 0
      ensures m.Some? ==> m.value == metadata[|metadata| - 1]
    {
      if |metadata| == 0 then None else Some(metadata[|metadata| - 1])
    }

    /** `auctionData.clear()`. */
    method ClearRecords()
      modifies this
      ensures records == [] && metadata == old(metadata)
    {
      records := [];
    }

    /** `metadata.clear()`. */
    method ClearMetadata()
      modifies this
      ensures metadata == [] && records == old(records)
    {
      metadata := [];
    }

    /** `auctionData.bulkAdd(batch)`. */
    method BulkAdd(batch: seq<AuctionRecord>)
      modifies this
      ensures records == old(records) + batch && metadata == old(metadata)
    {
      records := records + batch;
    }

    /** `metadata.add(row)`. */
    method AddMetadata(row: DatasetMetadata)
      modifies this
      ensures metadata == old(metadata) + [row] && records == old(records)
    {
      metadata := metadata + [row];
    }

    /** `db.delete()` followed by `db.open()`: the same database, empty. */
    method DeleteAndOpen()
      modifies this
      ensures records == [] && metadata == []
    {
      records := [];
      metadata := [];
    }

    /** An aborted transaction: both tables return to what they held before it. */
    method Rollback(before: LoaderSpec.Db)
      modifies this
      ensures Contents() == before
    {
      records := before.records;
      metadata := before.metadata;
    }
  }
}
