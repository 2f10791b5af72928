/** The replicated store of simulation/datastore.go: a map updated in place. */
module DataStore {
  import opened Ids
  import opened Network

  class MapWrapper {
    var data: Data

    constructor (data: Data)
      ensures this.data == data
    {
      this.data := data;
    }

    method Set(key: string, val: string)
      modifies this
      ensures data == old(data)[key := val]
    {
      data := data[key := val];
    }

    method Get(key: string) returns (val: string, exists_: bool)
      ensures exists_ <==> key in data
      ensures val == if key in data then data[key] else ""
    {
      exists_ := key in data;
      val := if exists_ then data[key] else "";
    }

    method Delete(key: string) returns (val: string, exists_: bool)
      modifies this
      ensures exists_ <==> key in old(data)
      ensures val == if exists_ then old(data)[key] else ""
      ensures data == old(data) - {key}
    {
      val, exists_ := Get(key);
      data := data - {key};
    }

    /** A missing key reads as the empty string. */
    method Swap(key: string, val: string) returns (old_: string)
      modifies this
      ensures old_ == if key in old(data) then old(data)[key] else ""
      ensures data == old(data)[key := val]
    {
      old_ := if key in data then data[key] else "";
      data := data[key := val];
    }

    method Copy() returns (m2: MapWrapper)
      ensures fresh(m2) && m2.data == data
    {
      m2 := new MapWrapper(map[]);
      var todo := data.Keys;
      while todo != {}
        invariant todo <= data.Keys && m2.data == data - todo
        modifies m2
      {
        var key :| key in todo;
        m2.data := m2.data[key := data[key]];
        todo := todo - {key};
      }
    }

    method Filter(lbl: Id)
      modifies this
      ensures data == Network.Filter(old(data), lbl)
    {
      var todo := data.Keys;
      while todo != {}
        invariant todo <= data.Keys <= old(data).Keys
        invariant forall x :: x in data ==> data[x] == old(data)[x]
        invariant forall x :: x in old(data) && x !in todo ==> (x in data <==> lbl <= Parse(x))
      {
        var key :| key in todo;
        var id := IdFromString(key);
        var keep := Prefix(lbl, id);
        if !keep {
          data := data - {key};
        }
        todo := todo - {key};
      }
    }

    /** Entries of the other store win. A store merged with itself would wait for its own lock. */
    method Merge(m2: MapWrapper)
      requires m2 != this
      modifies this
      ensures data == old(data) + m2.data
    {
      var todo := m2.data.Keys;
      while todo != {}
        invariant todo <= m2.data.Keys
        invariant data == old(data) + (m2.data - todo)
      {
        var key :| key in todo;
        data := data[key := m2.data[key]];
        todo := todo - {key};
      }
    }
  }
}
