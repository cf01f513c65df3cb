/** The table cache on bytes (src/tableCache.ts:72-202): what is saved loads again, and exactly which
    damaged files are noticed. */
module TableCache {
  import opened Options

  type Byte = b: nat | b < 256

  // ----- variable-length numbers -----

  function Varint(value: nat): (bs: seq<Byte>)
    ensures bs != []
  {
    if value < 0x80 then [value] else [value % 0x80 + 0x80] + Varint(value / 0x80)
  }

  function Varints(values: seq<nat>): seq<Byte> {
    if values == [] then [] else Varint(values[0]) + Varints(values[1..])
  }

  // The number at `o`, and where it ends; past the bytes it is 0.
  function ReadFrom(bytes: seq<Byte>, o: nat, place: nat, value: nat): (r: (nat, nat))
    ensures o < r.1
    decreases |bytes| - o
  {
    if o >= |bytes| then (0, o + 1)
    else
      var v := value + bytes[o] % 0x80 * place;
      if bytes[o] < 0x80 then (v, o + 1) else ReadFrom(bytes, o + 1, place * 0x80, v)
  }

  function Read(bytes: seq<Byte>, o: nat): (r: (nat, nat))
    ensures o < r.1
  {
    ReadFrom(bytes, o, 1, 0)
  }

  // Bytes of a number whose last byte is missing.
  predicate Broken(p: seq<Byte>) {
    forall i | 0 <= i < |p| :: p[i] >= 0x80
  }

  lemma {:induction false} VarintShape(value: nat, n: nat)
    requires n < |Varint(value)|
    ensures Broken(Varint(value)[..n])
  {
    if value >= 0x80 && n > 0 {
      VarintShape(value / 0x80, n - 1);
      assert Varint(value)[..n] == [Varint(value)[0]] + Varint(value / 0x80)[..n - 1];
    }
  }

  lemma Shifted(value: nat, v: nat, place: nat)
    ensures value + v % 0x80 * place + v / 0x80 * (place * 0x80) == value + v * place
  {
    assert v == v / 0x80 * 0x80 + v % 0x80;
    assert v * place == v / 0x80 * 0x80 * place + v % 0x80 * place;
  }

  lemma {:induction false} ReadBack(pre: seq<Byte>, v: nat, post: seq<Byte>, place: nat, value: nat)
    ensures ReadFrom(pre + Varint(v) + post, |pre|, place, value) == (value + v * place, |pre| + |Varint(v)|)
    decreases v
  {
    var bytes := pre + Varint(v) + post;
    assert bytes[|pre|] == Varint(v)[0];
    if v >= 0x80 {
      var b: Byte := v % 0x80 + 0x80;
      var pre' := pre + [b];
      assert bytes == pre' + Varint(v / 0x80) + post;
      ReadBack(pre', v / 0x80, post, place * 0x80, value + v % 0x80 * place);
      Shifted(value, v, place);
      assert b % 0x80 == v % 0x80;
    }
  }

  lemma {:induction false} ReadOff(pre: seq<Byte>, p: seq<Byte>, place: nat, value: nat)
    requires Broken(p)
    ensures ReadFrom(pre + p, |pre|, place, value) == (0, |pre + p| + 1)
    decreases |p|
  {
    if p != [] {
      assert pre + p == pre + [p[0]] + p[1..];
      assert (pre + p)[|pre|] == p[0];
      ReadOff(pre + [p[0]], p[1..], place * 0x80, value + p[0] % 0x80 * place);
    }
  }

  /** A number that was put down is read back, whatever follows it. */
  lemma ReadPut(pre: seq<Byte>, v: nat, post: seq<Byte>)
    ensures Read(pre + Varint(v) + post, |pre|) == (v, |pre| + |Varint(v)|)
  {
    ReadBack(pre, v, post, 1, 0);
  }

  // ----- rows -----

  // The numbers of a row, while bytes are left.
  function ReadValues(bytes: seq<Byte>, o: nat, n: nat): (r: (seq<nat>, nat))
    ensures o <= r.1
    decreases n
  {
    if n > 0 && o + 1 <= |bytes| then
      var (v, o1) := Read(bytes, o);
      var (vs, o2) := ReadValues(bytes, o1, n - 1);
      ([v] + vs, o2)
    else ([], o)
  }

  function ReadRow(bytes: seq<Byte>, o: nat): (r: (seq<nat>, nat))
    ensures o < r.1
  {
    var (n, o1) := Read(bytes, o);
    ReadValues(bytes, o1, n)
  }

  function ReadRows(bytes: seq<Byte>, o: nat, count: nat): (r: (seq<seq<nat>>, nat))
    ensures o <= r.1
    decreases count
  {
    if count > 0 && o + 1 <= |bytes| then
      var (row, o1) := ReadRow(bytes, o);
      var (rows, o2) := ReadRows(bytes, o1, count - 1);
      ([row] + rows, o2)
    else ([], o)
  }

  // The numbers a row, and rows, are written as.
  function RowNumbers(row: seq<nat>): seq<nat> {
    [|row|] + row
  }

  function RowsNumbers(rows: seq<seq<nat>>): seq<nat> {
    if rows == [] then [] else RowNumbers(rows[0]) + RowsNumbers(rows[1..])
  }

  lemma {:induction false} VarintsAppend(a: seq<nat>, b: seq<nat>)
    ensures Varints(a + b) == Varints(a) + Varints(b)
  {
    if a == [] {
      assert a + b == b;
    } else {
      assert (a + b)[1..] == a[1..] + b;
      VarintsAppend(a[1..], b);
    }
  }

  lemma {:induction false} ValuesBack(pre: seq<Byte>, vs: seq<nat>, post: seq<Byte>)
    ensures ReadValues(pre + Varints(vs) + post, |pre|, |vs|) == (vs, |pre| + |Varints(vs)|)
    decreases |vs|
  {
    hide Varint, Read;
    if vs != [] {
      var bytes := pre + Varints(vs) + post;
      var pre' := pre + Varint(vs[0]);
      assert bytes == pre + Varint(vs[0]) + (Varints(vs[1..]) + post) == pre' + Varints(vs[1..]) + post;
      ReadPut(pre, vs[0], Varints(vs[1..]) + post);
      ValuesBack(pre', vs[1..], post);
      assert vs == [vs[0]] + vs[1..];
    }
  }

  lemma RowBack(pre: seq<Byte>, row: seq<nat>, post: seq<Byte>)
    ensures ReadRow(pre + Varints(RowNumbers(row)) + post, |pre|) == (row, |pre| + |Varints(RowNumbers(row))|)
  {
    var pre' := pre + Varint(|row|);
    assert RowNumbers(row)[1..] == row;
    assert pre + Varints(RowNumbers(row)) + post == pre + Varint(|row|) + (Varints(row) + post) == pre' + Varints(row) + post;
    ReadPut(pre, |row|, Varints(row) + post);
    ValuesBack(pre', row, post);
  }

  lemma RowBytes(row: seq<nat>)
    ensures Varints(RowNumbers(row)) != []
  {
  }

  lemma {:induction false} RowsBack(pre: seq<Byte>, rows: seq<seq<nat>>, post: seq<Byte>)
    ensures ReadRows(pre + Varints(RowsNumbers(rows)) + post, |pre|, |rows|) == (rows, |pre| + |Varints(RowsNumbers(rows))|)
    decreases |rows|
  {
    hide Varint, ReadRow, RowNumbers;
    if rows != [] {
      var bytes := pre + Varints(RowsNumbers(rows)) + post;
      var first, rest := Varints(RowNumbers(rows[0])), Varints(RowsNumbers(rows[1..]));
      VarintsAppend(RowNumbers(rows[0]), RowsNumbers(rows[1..]));
      assert bytes == pre + first + (rest + post) == (pre + first) + rest + post;
      RowBack(pre, rows[0], rest + post);
      RowBytes(rows[0]);
      RowsBack(pre + first, rows[1..], post);
      assert rows == [rows[0]] + rows[1..];
    }
  }

  lemma NoNumbers(nums: seq<nat>)
    ensures Varints(nums[..0]) == []
  {
  }

  // ----- rows cut short -----

  // What is left after a cut: nothing, or the beginning of one more number.
  predicate Cut(tail: seq<Byte>) {
    Broken(tail)
  }

  // Where reading ends: at the end of the bytes, or past it if a number was cut.
  function EndOf(bytes: seq<Byte>, tail: seq<Byte>): nat {
    if tail == [] then |bytes| else |bytes| + 1
  }

  lemma {:induction false} ValuesCut(pre: seq<Byte>, vs: seq<nat>, n: nat, tail: seq<Byte>)
    requires |vs| < n && Cut(tail)
    ensures ReadValues(pre + Varints(vs) + tail, |pre|, n).1 == EndOf(pre + Varints(vs) + tail, tail)
    decreases |vs|
  {
    var bytes := pre + Varints(vs) + tail;
    if vs == [] {
      assert bytes == pre + tail;
      if tail != [] {
        ReadOff(pre, tail, 1, 0);
        NoneLeft(bytes, |bytes| + 1, n - 1);
      }
    } else {
      var pre' := pre + Varint(vs[0]);
      assert bytes == pre + Varint(vs[0]) + (Varints(vs[1..]) + tail) == pre' + Varints(vs[1..]) + tail;
      ReadPut(pre, vs[0], Varints(vs[1..]) + tail);
      ValuesCut(pre', vs[1..], n - 1, tail);
    }
  }

  // Past the end nothing is read.
  lemma NoneLeft(bytes: seq<Byte>, o: nat, n: nat)
    requires o >= |bytes|
    ensures ReadValues(bytes, o, n) == ([], o) && ReadRows(bytes, o, n) == ([], o)
  {
  }

  lemma RowCut(pre: seq<Byte>, row: seq<nat>, k: nat, tail: seq<Byte>)
    requires k <= |row| && Cut(tail) && (k > 0 || tail != [])
    ensures var bytes := pre + Varints(RowNumbers(row)[..k]) + tail; ReadRow(bytes, |pre|).1 == EndOf(bytes, tail)
  {
    var bytes := pre + Varints(RowNumbers(row)[..k]) + tail;
    if k == 0 {
      assert bytes == pre + tail;
      ReadOff(pre, tail, 1, 0);
      NoneLeft(bytes, |bytes| + 1, 0);
    } else {
      var pre' := pre + Varint(|row|);
      assert RowNumbers(row)[..k][1..] == row[..k - 1];
      assert bytes == pre + Varint(|row|) + (Varints(row[..k - 1]) + tail) == pre' + Varints(row[..k - 1]) + tail;
      ReadPut(pre, |row|, Varints(row[..k - 1]) + tail);
      ValuesCut(pre', row[..k - 1], |row|, tail);
    }
  }

  lemma {:induction false} RowsCut(pre: seq<Byte>, rows: seq<seq<nat>>, k: nat, tail: seq<Byte>)
    requires k < |RowsNumbers(rows)| && Cut(tail)
    ensures var bytes := pre + Varints(RowsNumbers(rows)[..k]) + tail; ReadRows(bytes, |pre|, |rows|).1 == EndOf(bytes, tail)
    decreases |rows|
  {
    hide Varint, ReadRow, Varints, Broken;
    NoNumbers(RowsNumbers(rows));
    var nums, first := RowsNumbers(rows), RowNumbers(rows[0]);
    var bytes := pre + Varints(nums[..k]) + tail;
    if k == 0 && tail == [] {
      assert bytes == pre;
      NoneLeft(bytes, |pre|, |rows|);
    } else if k < |first| {
      assert nums[..k] == first[..k];
      RowCut(pre, rows[0], k, tail);
      SomethingLeft(pre, nums[..k], tail);
      NoneLeft(bytes, EndOf(bytes, tail), |rows| - 1);
    } else {
      var rest := RowsNumbers(rows[1..])[..k - |first|];
      assert nums[..k] == first + rest;
      VarintsAppend(first, rest);
      assert bytes == pre + Varints(first) + (Varints(rest) + tail) == (pre + Varints(first)) + Varints(rest) + tail;
      RowBack(pre, rows[0], Varints(rest) + tail);
      SomethingLeft(pre, nums[..k], tail);
      RowsCut(pre + Varints(first), rows[1..], k - |first|, tail);
    }
  }

  lemma SomethingLeft(pre: seq<Byte>, nums: seq<nat>, tail: seq<Byte>)
    requires nums != [] || tail != []
    ensures |pre| + 1 <= |pre + Varints(nums) + tail|
  {
    if nums != [] { assert |Varint(nums[0])| > 0; }
  }

  // ----- the whole file -----

  const MAGIC: seq<Byte> := [84, 83, 76, 82]

  // A modification time as its eight bytes, and a size.
  datatype Stamp = Stamp(mtime: seq<Byte>, size: nat)

  datatype Tables = Tables(action: seq<seq<nat>>, goto: seq<seq<nat>>)

  // What the tables were built from.
  datatype Origin = Origin(version: nat, flags: nat, digest: nat, stamps: seq<Stamp>)

  ghost predicate OriginOk(g: Origin) {
    forall i | 0 <= i < |g.stamps| :: |g.stamps[i].mtime| == 8
  }

  function StampBytes(stamps: seq<Stamp>): seq<Byte> {
    if stamps == [] then [] else stamps[0].mtime + Varint(stamps[0].size) + StampBytes(stamps[1..])
  }

  function Fields(g: Origin): seq<nat> {
    [g.version, g.flags, g.digest, |g.stamps|]
  }

  function Header(g: Origin): seq<Byte> {
    MAGIC + Varints(Fields(g)) + StampBytes(g.stamps)
  }

  function TableNumbers(t: Tables): seq<nat> {
    [|t.action|] + RowsNumbers(t.action) + RowsNumbers(t.goto)
  }

  function Saved(g: Origin, t: Tables): seq<Byte> {
    Header(g) + Varints(TableNumbers(t))
  }

  // The offset after `fields`, if they are what is expected.
  function MatchFields(bytes: seq<Byte>, o: nat, fields: seq<nat>): Option<nat>
    decreases |fields|
  {
    if fields == [] then Some(o)
    else
      var (v, o1) := Read(bytes, o);
      if v != fields[0] then None else MatchFields(bytes, o1, fields[1..])
  }

  function MatchStamps(bytes: seq<Byte>, o: nat, stamps: seq<Stamp>): Option<nat>
    decreases |stamps|
  {
    if stamps == [] then Some(o)
    else if o + 8 > |bytes| then None
    else
      var (size, o1) := Read(bytes, o + 8);
      if bytes[o..o + 8] != stamps[0].mtime || size != stamps[0].size then None else MatchStamps(bytes, o1, stamps[1..])
  }

  function ReadTables(bytes: seq<Byte>, o: nat): Option<Tables> {
    var (states, o1) := Read(bytes, o);
    var (action, o2) := ReadRows(bytes, o1, states);
    var (goto, o3) := ReadRows(bytes, o2, states);
    if o3 == |bytes| then Some(Tables(action, goto)) else None
  }

  function Load(bytes: seq<Byte>, g: Origin): Option<Tables> {
    if |bytes| < 4 || bytes[..4] != MAGIC then None
    else
      match MatchFields(bytes, 4, Fields(g))
      case None => None
      case Some(o1) =>
        match MatchStamps(bytes, o1, g.stamps)
        case None => None
        case Some(o2) => ReadTables(bytes, o2)
  }

  // ----- what was saved -----

  lemma {:induction false} FieldsBack(pre: seq<Byte>, fields: seq<nat>, post: seq<Byte>)
    ensures MatchFields(pre + Varints(fields) + post, |pre|, fields) == Some(|pre| + |Varints(fields)|)
    decreases |fields|
  {
    hide Varint, Read;
    if fields != [] {
      var pre' := pre + Varint(fields[0]);
      assert pre + Varints(fields) + post == pre + Varint(fields[0]) + (Varints(fields[1..]) + post) == pre' + Varints(fields[1..]) + post;
      ReadPut(pre, fields[0], Varints(fields[1..]) + post);
      FieldsBack(pre', fields[1..], post);
    }
  }

  lemma {:induction false} StampsBack(pre: seq<Byte>, stamps: seq<Stamp>, post: seq<Byte>)
    requires forall i | 0 <= i < |stamps| :: |stamps[i].mtime| == 8
    ensures MatchStamps(pre + StampBytes(stamps) + post, |pre|, stamps) == Some(|pre| + |StampBytes(stamps)|)
    decreases |stamps|
  {
    hide Varint, Read;
    if stamps != [] {
      var bytes := pre + StampBytes(stamps) + post;
      var s, more := stamps[0], StampBytes(stamps[1..]) + post;
      var pre' := pre + s.mtime;
      assert bytes == pre' + Varint(s.size) + more == (pre' + Varint(s.size)) + StampBytes(stamps[1..]) + post;
      assert bytes[|pre|..|pre| + 8] == s.mtime;
      ReadPut(pre', s.size, more);
      StampsBack(pre' + Varint(s.size), stamps[1..], post);
    }
  }

  // With its whole header there, a file loads just as its tables read.
  lemma HeaderBack(g: Origin, rest: seq<Byte>)
    requires OriginOk(g)
    ensures Load(Header(g) + rest, g) == ReadTables(Header(g) + rest, |Header(g)|)
  {
    hide Varints, StampBytes, ReadTables;
    var bytes := Header(g) + rest;
    assert bytes[..4] == MAGIC;
    assert bytes == MAGIC + Varints(Fields(g)) + (StampBytes(g.stamps) + rest);
    FieldsBack(MAGIC, Fields(g), StampBytes(g.stamps) + rest);
    var pre := MAGIC + Varints(Fields(g));
    assert bytes == pre + StampBytes(g.stamps) + rest;
    StampsBack(pre, g.stamps, rest);
  }

  lemma TableVarints(t: Tables)
    ensures Varints(TableNumbers(t)) == Varint(|t.action|) + Varints(RowsNumbers(t.action)) + Varints(RowsNumbers(t.goto))
  {
    hide RowsNumbers, Varint;
    var a, b := RowsNumbers(t.action), RowsNumbers(t.goto);
    assert TableNumbers(t) == [|t.action|] + (a + b) && TableNumbers(t)[1..] == a + b;
    VarintsAppend(a, b);
  }

  lemma TablesBack(pre: seq<Byte>, t: Tables, post: seq<Byte>)
    requires |t.action| == |t.goto|
    ensures ReadTables(pre + Varints(TableNumbers(t)) + post, |pre|) == if post == [] then Some(t) else None
  {
    hide Varint, Varints, RowsNumbers, ReadRows, Read;
    TableVarints(t);
    var s, a, b := Varint(|t.action|), Varints(RowsNumbers(t.action)), Varints(RowsNumbers(t.goto));
    var bytes := pre + Varints(TableNumbers(t)) + post;
    assert bytes == pre + s + (a + b + post) == (pre + s) + a + (b + post) == (pre + s + a) + b + post;
    ReadPut(pre, |t.action|, a + b + post);
    RowsBack(pre + s, t.action, b + post);
    RowsBack(pre + s + a, t.goto, post);
  }

  /** What is saved is loaded again; with anything after it, it is not. */
  lemma SavedLoads(g: Origin, t: Tables, post: seq<Byte>)
    requires OriginOk(g) && |t.action| == |t.goto|
    ensures Load(Saved(g, t) + post, g) == if post == [] then Some(t) else None
  {
    hide Load, Header, ReadTables, Varints;
    assert Saved(g, t) + post == Header(g) + (Varints(TableNumbers(t)) + post) == Header(g) + Varints(TableNumbers(t)) + post;
    HeaderBack(g, Varints(TableNumbers(t)) + post);
    TablesBack(Header(g), t, post);
  }

  // ----- what was cut -----

  // The table area cut after its first number, between numbers or inside one.
  lemma TablesCut(pre: seq<Byte>, t: Tables, k: nat, tail: seq<Byte>)
    requires |t.action| == |t.goto| && 1 <= k < |TableNumbers(t)| && Cut(tail)
    ensures ReadTables(pre + Varints(TableNumbers(t)[..k]) + tail, |pre|).Some? <==> tail == []
  {
    hide Varint, Varints, RowsNumbers, ReadRows, Read;
    var a, b := RowsNumbers(t.action), RowsNumbers(t.goto);
    var nums := TableNumbers(t);
    var bytes := pre + Varints(nums[..k]) + tail;
    var n := |t.action|;
    var at := pre + Varint(n);
    assert nums[..k] == [n] + (a + b)[..k - 1];
    FirstNumber(n, (a + b)[..k - 1]);
    if k - 1 < |a| {
      assert (a + b)[..k - 1] == a[..k - 1];
      assert bytes == pre + Varint(n) + (Varints(a[..k - 1]) + tail) == at + Varints(a[..k - 1]) + tail;
      ReadPut(pre, n, Varints(a[..k - 1]) + tail);
      RowsCut(at, t.action, k - 1, tail);
      NoneLeft(bytes, EndOf(bytes, tail), n);
    } else {
      var more := b[..k - 1 - |a|];
      assert (a + b)[..k - 1] == a + more;
      VarintsAppend(a, more);
      assert bytes == pre + Varint(n) + (Varints(a) + Varints(more) + tail) == at + Varints(a) + (Varints(more) + tail)
        == (at + Varints(a)) + Varints(more) + tail;
      ReadPut(pre, n, Varints(a) + Varints(more) + tail);
      RowsBack(at, t.action, Varints(more) + tail);
      RowsCut(at + Varints(a), t.goto, k - 1 - |a|, tail);
    }
  }

  lemma FirstNumber(n: nat, more: seq<nat>)
    ensures Varints([n] + more) == Varint(n) + Varints(more)
  {
    assert ([n] + more)[1..] == more;
  }

  // Any cut falls between two numbers or inside one.
  lemma {:induction false} WhereCut(nums: seq<nat>, n: nat) returns (k: nat, tail: seq<Byte>)
    requires n < |Varints(nums)|
    ensures k < |nums| && Cut(tail) && |tail| < |Varint(nums[k])| && Varints(nums)[..n] == Varints(nums[..k]) + tail
    decreases |nums|
  {
    hide Varint;
    var first := Varint(nums[0]);
    if n < |first| {
      k, tail := 0, first[..n];
      VarintShape(nums[0], n);
      assert Varints(nums)[..n] == first[..n] && nums[..0] == [];
    } else {
      k, tail := WhereCut(nums[1..], n - |first|);
      assert nums[..k + 1] == [nums[0]] + nums[1..][..k];
      FirstNumber(nums[0], nums[1..][..k]);
      assert Varints(nums)[..n] == first + Varints(nums[1..])[..n - |first|];
      assert first + (Varints(nums[1..][..k]) + tail) == (first + Varints(nums[1..][..k])) + tail;
      k := k + 1;
    }
  }

  // Where a reader of the first `n` bytes is when a reader of all of them is at `at`.
  predicate Tracks(o: nat, at: nat, n: nat) {
    if at <= n then o == at else o > n
  }

  lemma TrackRead(pre: seq<Byte>, v: nat, post: seq<Byte>, n: nat, o: nat)
    requires n <= |pre + Varint(v) + post| && Tracks(o, |pre|, n)
    ensures Tracks(Read((pre + Varint(v) + post)[..n], o).1, |pre| + |Varint(v)|, n)
  {
    hide Varint;
    var full, len := pre + Varint(v) + post, |pre| + |Varint(v)|;
    var bytes := full[..n];
    if len <= n {
      assert bytes == pre + Varint(v) + post[..n - len];
      ReadPut(pre, v, post[..n - len]);
    } else if |pre| <= n {
      var p := Varint(v)[..n - |pre|];
      assert bytes == pre + p;
      VarintShape(v, n - |pre|);
      ReadOff(pre, p, 1, 0);
    }
  }

  lemma {:induction false} TrackFields(pre: seq<Byte>, fields: seq<nat>, post: seq<Byte>, n: nat, o: nat)
    requires n <= |pre + Varints(fields) + post| && Tracks(o, |pre|, n)
    ensures var end := MatchFields((pre + Varints(fields) + post)[..n], o, fields);
      end.Some? ==> Tracks(end.value, |pre| + |Varints(fields)|, n)
    decreases |fields|
  {
    hide Varint, Read;
    if fields != [] {
      var full, rest := pre + Varints(fields) + post, Varints(fields[1..]) + post;
      var pre' := pre + Varint(fields[0]);
      assert full == pre + Varint(fields[0]) + rest == pre' + Varints(fields[1..]) + post;
      TrackRead(pre, fields[0], rest, n, o);
      TrackFields(pre', fields[1..], post, n, Read(full[..n], o).1);
    }
  }

  lemma {:induction false} TrackStamps(pre: seq<Byte>, stamps: seq<Stamp>, post: seq<Byte>, n: nat, o: nat)
    requires n <= |pre + StampBytes(stamps) + post| && Tracks(o, |pre|, n)
    requires forall i | 0 <= i < |stamps| :: |stamps[i].mtime| == 8
    ensures var end := MatchStamps((pre + StampBytes(stamps) + post)[..n], o, stamps);
      end.Some? ==> Tracks(end.value, |pre| + |StampBytes(stamps)|, n)
    decreases |stamps|
  {
    hide Varint, Read;
    if stamps != [] && o + 8 <= n {
      var full, s, more := pre + StampBytes(stamps) + post, stamps[0], StampBytes(stamps[1..]) + post;
      var pre' := pre + s.mtime;
      assert full == pre' + Varint(s.size) + more == (pre' + Varint(s.size)) + StampBytes(stamps[1..]) + post;
      TrackRead(pre', s.size, more, n, o + 8);
      TrackStamps(pre' + Varint(s.size), stamps[1..], post, n, Read(full[..n], o + 8).1);
    }
  }

  /** A file cut before the end of its state count is noticed. */
  lemma HeaderCut(g: Origin, t: Tables, n: nat)
    requires OriginOk(g) && n < |Header(g)| + |Varint(|t.action|)|
    ensures n <= |Saved(g, t)| && Load(Saved(g, t)[..n], g) == None
  {
    hide Varint, Varints, StampBytes, MatchFields, MatchStamps, Read, RowsNumbers;
    TableVarints(t);
    var full := Saved(g, t);
    var bytes := full[..n];
    var count := Varint(|t.action|);
    var rest := Varints(RowsNumbers(t.action)) + Varints(RowsNumbers(t.goto));
    var tables := Varints(TableNumbers(t));
    assert tables == count + rest;
    if |bytes| >= 4 && bytes[..4] == MAGIC {
      var post := StampBytes(g.stamps) + tables;
      assert full == MAGIC + Varints(Fields(g)) + post;
      TrackFields(MAGIC, Fields(g), post, n, 4);
      var o1 := MatchFields(bytes, 4, Fields(g));
      if o1.Some? {
        var pre := MAGIC + Varints(Fields(g));
        assert full == pre + StampBytes(g.stamps) + tables;
        TrackStamps(pre, g.stamps, tables, n, o1.value);
        var o2 := MatchStamps(bytes, o1.value, g.stamps);
        if o2.Some? {
          assert full == Header(g) + count + rest;
          TrackRead(Header(g), |t.action|, rest, n, o2.value);
          PastTheEnd(bytes, o2.value);
        }
      }
    }
  }

  lemma PastTheEnd(bytes: seq<Byte>, o: nat)
    requires Read(bytes, o).1 > |bytes|
    ensures ReadTables(bytes, o) == None
  {
    hide Read;
    NoneLeft(bytes, Read(bytes, o).1, Read(bytes, o).0);
  }

  /** A file that was cut is taken for a whole one exactly when the cut falls between two numbers of the
      table area, after the state count. */
  lemma CutLoads(g: Origin, t: Tables, n: nat)
    requires OriginOk(g) && |t.action| == |t.goto| && n < |Saved(g, t)|
    ensures Load(Saved(g, t)[..n], g).Some? <==>
      exists k :: 1 <= k < |TableNumbers(t)| && n == |Header(g)| + |Varints(TableNumbers(t)[..k])|
  {
    hide Varint, Varints, Header, Load, ReadTables, TableNumbers;
    var nums, h := TableNumbers(t), |Header(g)|;
    NumbersSome(t);
    if n < h + |Varint(|t.action|)| {
      HeaderCut(g, t, n);
      forall k | 1 <= k < |nums| ensures n != h + |Varints(nums[..k])| { PrefixLonger(nums, k); }
    } else {
      var k, tail := WhereCut(nums, n - h);
      var bytes := Saved(g, t)[..n];
      assert bytes == Header(g) + (Varints(nums[..k]) + tail) == Header(g) + Varints(nums[..k]) + tail;
      if k == 0 { NoNumbers(nums); }
      HeaderBack(g, Varints(nums[..k]) + tail);
      TablesCut(Header(g), t, k, tail);
      if tail != [] {
        forall q | 1 <= q < |nums| ensures n != h + |Varints(nums[..q])| { BetweenNumbers(nums, k, tail, q); }
      }
    }
  }

  lemma NumbersSome(t: Tables)
    ensures TableNumbers(t) != [] && TableNumbers(t)[0] == |t.action|
  {
  }

  lemma PrefixLonger(nums: seq<nat>, k: nat)
    requires 1 <= k <= |nums|
    ensures |Varints(nums[..k])| >= |Varint(nums[0])|
  {
  }

  lemma BetweenNumbers(nums: seq<nat>, k: nat, tail: seq<Byte>, q: nat)
    requires k < |nums| && q < |nums| && 0 < |tail| < |Varint(nums[k])|
    ensures |Varints(nums[..q])| != |Varints(nums[..k])| + |tail|
  {
    hide Varint, Varints;
    if q <= k {
      assert nums[..k] == nums[..q] + nums[q..k];
      VarintsAppend(nums[..q], nums[q..k]);
    } else {
      assert nums[..q] == nums[..k] + nums[k..q];
      VarintsAppend(nums[..k], nums[k..q]);
      assert nums[k..q] == [nums[k]] + nums[k + 1..q];
      FirstNumber(nums[k], nums[k + 1..q]);
    }
  }

  // ----- writing -----

  class Writer {
    var bytes: seq<Byte>

    constructor ()
      ensures bytes == []
    {
      bytes := [];
    }

    method PutVarint(value0: nat)
      modifies this
      ensures bytes == old(bytes) + Varint(value0)
    {
      var value := value0;
      ghost var start := bytes;
      while value >= 0x80
        invariant bytes + Varint(value) == start + Varint(value0)
      {
        bytes := bytes + [value % 0x80 + 0x80];
        value := value / 0x80;
      }
      bytes := bytes + [value];
    }

    method PutRows(rows: seq<seq<nat>>)
      modifies this
      ensures bytes == old(bytes) + Varints(RowsNumbers(rows))
    {
      hide Varint, Varints;
      ghost var start := bytes;
      NoNumbers([]);
      for r := 0 to |rows|
        invariant bytes + Varints(RowsNumbers(rows[r..])) == start + Varints(RowsNumbers(rows))
      {
        var row := rows[r];
        var more := RowsNumbers(rows[r + 1..]);
        assert rows[r..] == [row] + rows[r + 1..];
        assert RowsNumbers(rows[r..]) == [|row|] + (row + more);
        FirstNumber(|row|, row + more);
        PutVarint(|row|);
        for i := 0 to |row|
          invariant bytes + Varints(row[i..] + more) == start + Varints(RowsNumbers(rows))
        {
          assert row[i..] + more == [row[i]] + (row[i + 1..] + more);
          FirstNumber(row[i], row[i + 1..] + more);
          PutVarint(row[i]);
        }
        assert row[|row|..] + more == more;
      }
    }

    method PutStamp(stamp: Stamp)
      modifies this
      ensures bytes == old(bytes) + stamp.mtime + Varint(stamp.size)
    {
      bytes := bytes + stamp.mtime;
      PutVarint(stamp.size);
    }

    method Save(g: Origin, t: Tables)
      requires bytes == []
      modifies this
      ensures bytes == Saved(g, t)
    {
      hide Varint, Varints, StampBytes, RowsNumbers;
      bytes := MAGIC;
      PutVarint(g.version);
      PutVarint(g.flags);
      PutVarint(g.digest);
      PutVarint(|g.stamps|);
      FourNumbers(g.version, g.flags, g.digest, |g.stamps|);
      NoStamps();
      ghost var start := bytes;
      assert start == MAGIC + Varints(Fields(g)) && g.stamps[0..] == g.stamps;
      for i := 0 to |g.stamps|
        invariant bytes + StampBytes(g.stamps[i..]) == start + StampBytes(g.stamps)
      {
        NextStamp(g.stamps, i);
        PutStamp(g.stamps[i]);
      }
      assert g.stamps[|g.stamps|..] == [];
      assert bytes == bytes + [] == MAGIC + Varints(Fields(g)) + StampBytes(g.stamps);
      PutVarint(|t.action|);
      PutRows(t.action);
      PutRows(t.goto);
      TableVarints(t);
    }
  }

  lemma FourNumbers(a: nat, b: nat, c: nat, d: nat)
    ensures Varints([a, b, c, d]) == Varint(a) + Varint(b) + Varint(c) + Varint(d)
  {
    hide Varint, Varints;
    NoNumbers([]);
    assert [a, b, c, d] == [a] + ([b] + ([c] + ([d] + [])));
    FirstNumber(a, [b] + ([c] + ([d] + [])));
    FirstNumber(b, [c] + ([d] + []));
    FirstNumber(c, [d] + []);
    FirstNumber(d, []);
  }

  lemma NoStamps()
    ensures StampBytes([]) == []
  {
  }

  lemma NextStamp(stamps: seq<Stamp>, i: nat)
    requires i < |stamps|
    ensures StampBytes(stamps[i..]) == stamps[i].mtime + Varint(stamps[i].size) + StampBytes(stamps[i + 1..])
  {
    assert stamps[i..][1..] == stamps[i + 1..];
  }

  // ----- reading -----

  class Reader {
    const bytes: seq<Byte>
    var offset: nat

    constructor (bytes: seq<Byte>, offset: nat)
      ensures this.bytes == bytes && this.offset == offset
    {
      this.bytes, this.offset := bytes, offset;
    }

    predicate Fits(count: nat)
      reads this
    {
      offset + count <= |bytes|
    }

    method NextVarint() returns (value: nat)
      modifies this`offset
      ensures (value, offset) == Read(bytes, old(offset))
    {
      value := 0;
      var place: nat := 1;
      ghost var all := Read(bytes, offset);
      while true
        invariant all == ReadFrom(bytes, offset, place, value)
        decreases |bytes| - offset
      {
        offset := offset + 1;
        if offset - 1 >= |bytes| { return 0; }
        var b: nat := bytes[offset - 1];
        value := value + b % 0x80 * place;
        if b < 0x80 { return; }
        place := place * 0x80;
      }
    }

    method NextRow() returns (row: seq<nat>)
      modifies this`offset
      ensures (row, offset) == ReadRow(bytes, old(offset))
    {
      hide Read;
      ghost var all := ReadRow(bytes, offset);
      var n := NextVarint();
      row := [];
      assert [] + all.0 == all.0;
      while n > 0 && Fits(1)
        invariant all.0 == row + ReadValues(bytes, offset, n).0 && all.1 == ReadValues(bytes, offset, n).1
        decreases n
      {
        var v := NextVarint();
        row, n := row + [v], n - 1;
      }
      assert row + [] == row;
    }

    method NextRows(count: nat) returns (rows: seq<seq<nat>>)
      modifies this`offset
      ensures (rows, offset) == ReadRows(bytes, old(offset), count)
    {
      hide ReadRow;
      ghost var all := ReadRows(bytes, offset, count);
      rows := [];
      var n := count;
      assert [] + all.0 == all.0;
      while n > 0 && Fits(1)
        invariant all.0 == rows + ReadRows(bytes, offset, n).0 && all.1 == ReadRows(bytes, offset, n).1
        decreases n
      {
        var row := NextRow();
        rows, n := rows + [row], n - 1;
      }
      assert rows + [] == rows;
    }

    // Absent past the end, where the original has a time that equals none.
    method NextStamp() returns (stamp: Option<Stamp>)
      modifies this`offset
      ensures if old(offset) + 8 <= |bytes|
        then stamp == Some(Stamp(bytes[old(offset)..old(offset) + 8], Read(bytes, old(offset) + 8).0)) && offset == Read(bytes, old(offset) + 8).1
        else stamp == None
    {
      if !Fits(8) { return None; }
      var mtime := bytes[offset..offset + 8];
      offset := offset + 8;
      var size := NextVarint();
      stamp := Some(Stamp(mtime, size));
    }

    method NextTables() returns (t: Option<Tables>)
      modifies this`offset
      ensures t == ReadTables(bytes, old(offset))
    {
      hide Read, ReadRows;
      var states := NextVarint();
      var action := NextRows(states);
      var goto := NextRows(states);
      t := if offset == |bytes| then Some(Tables(action, goto)) else None;
    }
  }

  /** Reading a file: the tables, if all of it is as expected. */
  method LoadTables(bytes: seq<Byte>, g: Origin) returns (t: Option<Tables>)
    ensures t == Load(bytes, g)
  {
    hide Read, ReadTables;
    if |bytes| < 4 || bytes[..4] != MAGIC { return None; }
    var reader := new Reader(bytes, 4);
    var fields := [g.version, g.flags, g.digest, |g.stamps|];
    for i := 0 to 4
      invariant reader.bytes == bytes && MatchFields(bytes, 4, fields) == MatchFields(bytes, reader.offset, fields[i..])
    {
      assert fields[i..][0] == fields[i] && fields[i..][1..] == fields[i + 1..];
      var v := reader.NextVarint();
      if v != fields[i] { return None; }
    }
    assert fields[4..] == [];
    ghost var from := reader.offset;
    for i := 0 to |g.stamps|
      invariant reader.bytes == bytes && MatchStamps(bytes, from, g.stamps) == MatchStamps(bytes, reader.offset, g.stamps[i..])
    {
      assert g.stamps[i..][0] == g.stamps[i] && g.stamps[i..][1..] == g.stamps[i + 1..];
      var stamp := reader.NextStamp();
      if stamp != Some(g.stamps[i]) { return None; }
    }
    t := reader.NextTables();
  }
}
