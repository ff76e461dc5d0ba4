/** The image record (models.py, `GeneratedImage`) and the table that holds
    the records, keyed by the ids the database assigns. */
module Records {

  type Bytes = seq<bv8>

  /** One stored image: the prompt it was generated from, the file name the
      image was saved under, the decoded image and the creation time. */
  datatype ImageRecord = ImageRecord(prompt: string, fileName: string, image: Bytes, createdAt: int)

  /** The record table: existing rows by id, and the id the next insert gets
      (an auto-increment primary key starting at 1). */
  datatype Store = Store(records: map<int, ImageRecord>, nextId: int)

  /** Every existing id was handed out before `nextId`. */
  predicate Valid(st: Store)
  {
    1 <= st.nextId && forall id :: id in st.records ==> 1 <= id < st.nextId
  }

  /** Every record of `st` is still in `st2`, unchanged: records are never
      updated, and deleting them is not part of this model. */
  predicate Extends(st: Store, st2: Store)
  {
    forall id :: id in st.records ==> id in st2.records && st2.records[id] == st.records[id]
  }

  datatype Inserted = Inserted(id: int, store: Store)

  /** Inserting one row: the record gets a fresh id, every other row is kept,
      and the table stays valid. */
  function Create(st: Store, rec: ImageRecord): (r: Inserted)
    requires Valid(st)
    ensures r.id !in st.records
    ensures r.store.records == st.records[r.id := rec]
    ensures |r.store.records| == |st.records| + 1
    ensures Extends(st, r.store)
    ensures Valid(r.store)
  {
    Inserted(st.nextId, Store(st.records[st.nextId := rec], st.nextId + 1))
  }
}
