/** The DNS server's route table: rows grouped by module, and the two buffers of
    which one is read while the other is filled. */
module RouteData {
  import opened Wrappers
  import opened Words

  datatype Row = Row(modid: Int32, cmdid: Int32, ip: Int32, port: Int32)
  {
    function Key(): Uint64 {
      Pack(modid, cmdid)
    }

    /** The ip is read into an unsigned int. */
    function Value(): Uint64 {
      Pack(ToUint32(ip), port)
    }
  }

  type Grouping = map<Uint64, set<Uint64>>

  /** The hosts of a module: none for a module that is not in the table. */
  function HostsIn(g: Grouping, key: Uint64): set<Uint64> {
    if key in g then g[key] else {}
  }

  function WithRow(g: Grouping, row: Row): Grouping {
    g[row.Key() := HostsIn(g, row.Key()) + {row.Value()}]
  }

  /** The table grouped row by row. */
  function Group(rows: seq<Row>): Grouping {
    if rows == [] then map[] else WithRow(Group(rows[..|rows| - 1]), rows[|rows| - 1])
  }

  lemma GroupExtended(rows: seq<Row>, i: nat)
    requires i < |rows|
    ensures Group(rows[..i + 1]) == WithRow(Group(rows[..i]), rows[i])
  {
    assert rows[..i + 1][..i] == rows[..i];
  }

  /** Grouping is exact: a host is listed for a module if and only if the table has
      a row that says so, and a module has an entry if and only if it has a row. */
  lemma {:induction false} GroupIsExact(rows: seq<Row>, modid: Int32, cmdid: Int32, ip: Int32, port: Int32)
    ensures Pack(ip, port) in HostsIn(Group(rows), Pack(modid, cmdid)) <==> Row(modid, cmdid, ip, port) in rows
    ensures Pack(modid, cmdid) in Group(rows) <==> exists r :: r in rows && r.modid == modid && r.cmdid == cmdid
  {
    if rows != [] {
      var earlier, last := rows[..|rows| - 1], rows[|rows| - 1];
      assert rows == earlier + [last];
      GroupIsExact(earlier, modid, cmdid, ip, port);
      PackOfUint32(last.ip, last.port);
      if last.Key() == Pack(modid, cmdid) { PackInjective(last.modid, last.cmdid, modid, cmdid); }
      if last.Value() == Pack(ip, port) { PackInjective(last.ip, last.port, ip, port); }
      assert last in rows;
    }
  }

  /** One buffer: the object behind one of the two pointers. */
  class Buffer {
    var content: Grouping

    constructor ()
      ensures content == map[]
    {
      content := map[];
    }
  }

  class Route {
    var data: Buffer
    var tmpData: Buffer

    ghost predicate Valid()
      reads this
    {
      data != tmpData
    }

    constructor (rows: seq<Row>)
      ensures Valid() && fresh(data) && fresh(tmpData)
      ensures data.content == Group(rows) && tmpData.content == map[]
    {
      data := new Buffer();
      tmpData := new Buffer();
      new;
      Fill(data, rows);
    }

    method Fill(buffer: Buffer, rows: seq<Row>)
      requires buffer.content == map[]
      modifies buffer
      ensures buffer.content == Group(rows)
    {
      for i := 0 to |rows|
        invariant buffer.content == Group(rows[..i])
      {
        GroupExtended(rows, i);
        var key := rows[i].Key();
        var value := rows[i].Value();
        if key !in buffer.content {
          buffer.content := buffer.content[key := {}];
        }
        buffer.content := buffer.content[key := buffer.content[key] + {value}];
      }
      assert rows[..|rows|] == rows;
    }

    /** The hosts of a module in the buffer that is being read. */
    method GetHosts(modid: Int32, cmdid: Int32) returns (hosts: set<Uint64>)
      ensures hosts == HostsIn(data.content, Pack(modid, cmdid))
    {
      var key := Pack(modid, cmdid);
      hosts := {};
      if key in data.content {
        hosts := data.content[key];
      }
    }

    /** Fills the spare buffer; the query may fail. Readers see no difference. */
    method Reload(query: Option<seq<Row>>) returns (ret: int)
      requires Valid()
      modifies tmpData
      ensures ret == if query.Some? then 0 else -1
      ensures data.content == old(data.content)
      ensures tmpData.content == if query.Some? then Group(query.value) else map[]
    {
      tmpData.content := map[];
      if query.None? { return -1; }
      Fill(tmpData, query.value);
      ret := 0;
    }

    method Swap()
      requires Valid()
      modifies this
      ensures Valid()
      ensures data == old(tmpData) && tmpData == old(data)
    {
      var t := data;
      data := tmpData;
      tmpData := t;
    }
  }
}
