/** One resource file under `./data` (products, messages, carts or buy
    requests): a JSON array that a handler reads whole, changes in memory
    and writes back whole. */
module Store {
  import opened Values
  import opened Records

  class JsonFile {
    /** The parsed array, or `None` while the file does not exist. */
    var data: Option<seq<Record>>

    constructor (initial: Option<seq<Record>>)
      ensures data == initial
    {
      data := initial;
    }

    /** What a load with the `existsSync` fallback yields. */
    function Contents(): seq<Record>
      reads this
    {
      if data.Some? then data.value else []
    }

    /** Load with the missing-file fallback (messages, carts, buy requests):
        an absent file reads as the empty array. */
    method LoadOrEmpty() returns (rs: seq<Record>)
      ensures data.None? ==> rs == []
      ensures data.Some? ==> rs == data.value
    {
      if data.Some? {
        rs := data.value;
      } else {
        rs := [];
      }
    }

    /** Load without a fallback (products): `None` is the throw of
        `readFileSync` on an absent file. */
    method Load() returns (rs: Option<seq<Record>>)
      ensures rs.None? <==> data.None?
      ensures rs.Some? ==> rs.value == data.value
    {
      rs := data;
    }

    /** Overwrite the whole file, creating it when absent. */
    method Save(rs: seq<Record>)
      modifies this
      ensures data == Some(rs)
    {
      data := Some(rs);
    }

    /** Load with fallback, `push` one record, overwrite: the new file is
        the old contents with the record added at the end, so the earlier
        records are unchanged and the length grows by one. With a fresh id,
        ids stay unique and deleting that id restores the old contents. */
    method Append(rec: Record)
      modifies this
      ensures data == Some(old(Contents()) + [rec])
      ensures |Contents()| == |old(Contents())| + 1
      ensures Contents()[..|old(Contents())|] == old(Contents())
      ensures UniqueIds(old(Contents())) && !HasId(old(Contents()), rec.id) ==> UniqueIds(Contents())
      ensures !HasId(old(Contents()), rec.id) ==> RemoveId(Contents(), rec.id) == old(Contents())
    {
      var rs := LoadOrEmpty();
      if !HasId(rs, rec.id) {
        DeleteUndoesAppend(rs, rec);
      }
      rs := rs + [rec];
      Save(rs);
    }

    /** Load with fallback, `filter` out every record with the id,
        overwrite. The file is written even when nothing matched. */
    method DeleteById(id: string)
      modifies this
      ensures data == Some(RemoveId(old(Contents()), id))
    {
      var rs := LoadOrEmpty();
      Save(RemoveId(rs, id));
    }
  }
}
