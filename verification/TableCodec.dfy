/** Tables as rows of numbers (src/lalr.ts:440-603): what is serialised comes back. */
module TableCodec {
  import opened Options
  import opened Grammars
  import opened Tables
  import TableCache

  // ----- a structural key for an entry -----

  predicate IsDigit(ch: char) {
    '0' <= ch <= '9'
  }

  function Digit(n: nat): (ch: char)
    requires n < 10
    ensures IsDigit(ch)
  {
    '0' + n as char
  }

  function Decimal(n: nat): (s: string)
    ensures s != [] && forall i | 0 <= i < |s| :: IsDigit(s[i])
  {
    if n < 10 then [Digit(n)] else Decimal(n / 10) + [Digit(n % 10)]
  }

  function Key(e: Action): string {
    match e
    case ShiftTo(q) => "s" + Decimal(q)
    case ReduceBy(r) => "r" + Decimal(r)
    case AcceptAll => "accept"
    case IgnoreToken => "ignore"
    case ErrorToken => "error"
    case Conflict(entries) => "c(" + Keys(entries) + ")"
  }

  function Keys(entries: seq<Action>): string {
    if entries == [] then []
    else if |entries| == 1 then Key(entries[0])
    else Key(entries[0]) + "," + Keys(entries[1..])
  }

  // Nothing, or something that cannot continue a number or a key.
  predicate Stops(s: string) {
    s == [] || s[0] == ',' || s[0] == ')'
  }

  lemma {:induction false} DecimalApart(m: nat, n: nat)
    ensures Decimal(m) == Decimal(n) ==> m == n
  {
    if Decimal(m) == Decimal(n) {
      var a, b := Decimal(m), Decimal(n);
      assert a[|a| - 1] == Digit(m % 10) && b[|b| - 1] == Digit(n % 10);
      if m >= 10 && n >= 10 {
        assert a[..|a| - 1] == Decimal(m / 10) && b[..|b| - 1] == Decimal(n / 10);
        DecimalApart(m / 10, n / 10);
      }
    }
  }

  lemma {:induction false} SplitDigits(a: string, x: string, b: string, y: string)
    requires (forall i | 0 <= i < |a| :: IsDigit(a[i])) && (forall i | 0 <= i < |b| :: IsDigit(b[i])) && Stops(x) && Stops(y)
    requires a + x == b + y
    ensures a == b && x == y
  {
    SameHead(a, x, b, y);
    if a != [] {
      assert (a + x)[0] == a[0] && (b + y)[0] == b[0];
      assert (a + x)[1..] == a[1..] + x && (b + y)[1..] == b[1..] + y;
      SplitDigits(a[1..], x, b[1..], y);
    } else {
      assert a + x == x && b + y == y;
    }
  }

  lemma SameHead(a: string, x: string, b: string, y: string)
    requires (forall i | 0 <= i < |a| :: IsDigit(a[i])) && (forall i | 0 <= i < |b| :: IsDigit(b[i])) && Stops(x) && Stops(y)
    requires a + x == b + y
    ensures a == [] <==> b == []
  {
    var s, t := a + x, b + y;
    assert (a != [] ==> s[0] == a[0]) && (a == [] ==> s == x);
    assert (b != [] ==> t[0] == b[0]) && (b == [] ==> t == y);
  }

  // A key is its first letter and the rest.
  function Rest(e: Action): string {
    match e
    case ShiftTo(q) => Decimal(q)
    case ReduceBy(r) => Decimal(r)
    case AcceptAll => "ccept"
    case IgnoreToken => "gnore"
    case ErrorToken => "rror"
    case Conflict(entries) => "(" + Keys(entries) + ")"
  }

  function Letter(e: Action): char {
    match e
    case ShiftTo(_) => 's'
    case ReduceBy(_) => 'r'
    case AcceptAll => 'a'
    case IgnoreToken => 'i'
    case ErrorToken => 'e'
    case Conflict(_) => 'c'
  }

  lemma KeyParts(e: Action, x: string)
    ensures Key(e) == [Letter(e)] + Rest(e) && (Key(e) + x)[0] == Letter(e) && (Key(e) + x)[1..] == Rest(e) + x
  {
    var k := Key(e);
    assert k == [Letter(e)] + Rest(e);
    assert (k + x)[1..] == k[1..] + x;
  }

  lemma SameTail(a: string, x: string, y: string)
    requires a + x == a + y
    ensures x == y
  {
    assert x == (a + x)[|a|..] && y == (a + y)[|a|..];
  }

  // A parenthesised list of keys.
  lemma Inside(k: string, x: string)
    ensures ("(" + k + ")" + x)[1..] == k + (")" + x) && (")" + x)[1..] == x && ("(" + k + ")" + x) == "(" + (k + (")" + x))
  {
  }

  /** Different entries have different keys, whatever follows them in a list. */
  lemma {:induction false} KeysApart(e: Action, x: string, f: Action, y: string)
    requires Stops(x) && Stops(y) && Key(e) + x == Key(f) + y
    ensures e == f && x == y
    decreases e, 0
  {
    KeyParts(e, x);
    KeyParts(f, y);
    hide Key, Decimal, Keys;
    match e
    case ShiftTo(q) => SplitDigits(Decimal(q), x, Decimal(f.state), y); DecimalApart(q, f.state);
    case ReduceBy(r) => SplitDigits(Decimal(r), x, Decimal(f.rule), y); DecimalApart(r, f.rule);
    case Conflict(entries) =>
      Inside(Keys(entries), x);
      Inside(Keys(f.entries), y);
      ListsApart(entries, ")" + x, f.entries, ")" + y);
    case _ =>
      SameTail(Rest(e), x, y);
  }

  // The first entry of a list, and what follows it there.
  function After(entries: seq<Action>, x: string): string
    requires entries != []
  {
    if |entries| == 1 then x else "," + (Keys(entries[1..]) + x)
  }

  lemma Reassociate(a: string, b: string, c: string, d: string)
    ensures (a + b + c) + d == a + (b + (c + d))
  {
  }

  lemma ListParts(entries: seq<Action>, x: string)
    requires Stops(x) && x != []
    ensures entries == [] ==> Keys(entries) + x == x
    ensures entries != [] ==> Keys(entries) + x == Key(entries[0]) + After(entries, x) && Stops(After(entries, x))
  {
    hide Key;
    if |entries| > 1 { Reassociate(Key(entries[0]), ",", Keys(entries[1..]), x); }
  }

  lemma {:induction false} ListsApart(entries: seq<Action>, x: string, others: seq<Action>, y: string)
    requires x != [] && y != [] && x[0] == ')' && y[0] == ')' && Keys(entries) + x == Keys(others) + y
    ensures entries == others && x == y
    decreases entries, 1
  {
    hide Key, Keys;
    ListParts(entries, x);
    ListParts(others, y);
    FirstLetters(entries, x, others, y);
    if entries != [] {
      KeysApart(entries[0], After(entries, x), others[0], After(others, y));
      if |entries| == 1 || |others| == 1 {
        assert After(entries, x)[0] == After(others, y)[0];
        assert entries == [entries[0]] && others == [others[0]];
      } else {
        assert After(entries, x)[1..] == Keys(entries[1..]) + x && After(others, y)[1..] == Keys(others[1..]) + y;
        ListsApart(entries[1..], x, others[1..], y);
        assert entries == [entries[0]] + entries[1..] && others == [others[0]] + others[1..];
      }
    }
  }

  // An empty list ends at once, and no other does.
  lemma FirstLetters(entries: seq<Action>, x: string, others: seq<Action>, y: string)
    requires x != [] && y != [] && x[0] == ')' && y[0] == ')' && Keys(entries) + x == Keys(others) + y
    ensures entries == [] <==> others == []
  {
    ListParts(entries, x);
    ListParts(others, y);
    if entries != [] { KeyParts(entries[0], After(entries, x)); }
    if others != [] { KeyParts(others[0], After(others, y)); }
  }

  lemma KeyInjective(e: Action, f: Action)
    ensures Key(e) == Key(f) <==> e == f
  {
    if Key(e) == Key(f) {
      assert Key(e) + [] == Key(f) + [];
      KeysApart(e, [], f, []);
    }
  }

  // ----- entries as numbers -----

  function Encode(e: Action): seq<nat>
    decreases e, 0
  {
    match e
    case ShiftTo(q) => [0, q]
    case ReduceBy(r) => [1, r]
    case AcceptAll => [2]
    case Conflict(entries) => [3, |entries|] + EncodeAll(entries)
    case _ => []
  }

  function EncodeAll(entries: seq<Action>): seq<nat>
    decreases entries, 1
  {
    if entries == [] then [] else Encode(entries[0]) + EncodeAll(entries[1..])
  }

  // Without the default entries, which are never written.
  predicate Codable(e: Action) {
    match e
    case Conflict(entries) => forall i | 0 <= i < |entries| :: Codable(entries[i])
    case IgnoreToken => false
    case ErrorToken => false
    case _ => true
  }

  // The entry at `i` and where it ends; `None` where there is none.
  function Decode(row: seq<nat>, i: nat): (r: Option<(Action, nat)>)
    ensures r.Some? ==> i < r.value.1 <= |row|
    decreases |row| - i, 0, 0
  {
    if i >= |row| then None
    else if row[i] == 2 then Some((AcceptAll, i + 1))
    else if i + 1 >= |row| then None
    else if row[i] == 0 then Some((ShiftTo(row[i + 1]), i + 2))
    else if row[i] == 1 then Some((ReduceBy(row[i + 1]), i + 2))
    else if row[i] == 3 then
      (match DecodeAll(row, i + 2, row[i + 1])
       case None => None
       case Some((entries, j)) => Some((Conflict(entries), j)))
    else None
  }

  function DecodeAll(row: seq<nat>, i: nat, n: nat): (r: Option<(seq<Action>, nat)>)
    requires i <= |row|
    ensures r.Some? ==> i <= r.value.1 <= |row|
    decreases |row| - i, 1, n
  {
    if n == 0 then Some(([], i))
    else
      match Decode(row, i)
      case None => None
      case Some((e, j)) =>
        match DecodeAll(row, j, n - 1)
        case None => None
        case Some((more, k)) => Some(([e] + more, k))
  }

  /** An entry that was written is read back, whatever follows it. */
  lemma {:induction false} DecodeBack(pre: seq<nat>, e: Action, post: seq<nat>)
    requires Codable(e)
    ensures Encode(e) != [] && Decode(pre + Encode(e) + post, |pre|) == Some((e, |pre| + |Encode(e)|))
    decreases e, 0
  {
    var row := pre + Encode(e) + post;
    assert row[|pre|] == Encode(e)[0];
    match e
    case Conflict(entries) =>
      var pre' := pre + [3, |entries|];
      assert row == pre' + EncodeAll(entries) + post && row[|pre| + 1] == |entries|;
      DecodeAllBack(pre', entries, post);
    case ShiftTo(q) => assert row[|pre| + 1] == q;
    case ReduceBy(r) => assert row[|pre| + 1] == r;
    case AcceptAll =>
  }

  lemma {:induction false} DecodeAllBack(pre: seq<nat>, entries: seq<Action>, post: seq<nat>)
    requires forall i | 0 <= i < |entries| :: Codable(entries[i])
    ensures DecodeAll(pre + EncodeAll(entries) + post, |pre|, |entries|) == Some((entries, |pre| + |EncodeAll(entries)|))
    decreases entries, 1
  {
    hide Encode, Decode;
    if entries != [] {
      var row, first, rest := pre + EncodeAll(entries) + post, Encode(entries[0]), EncodeAll(entries[1..]);
      assert row == pre + first + (rest + post) == (pre + first) + rest + post;
      DecodeBack(pre, entries[0], rest + post);
      DecodeAllBack(pre + first, entries[1..], post);
      assert entries == [entries[0]] + entries[1..];
    }
  }

  // ----- rows -----

  // A cell: a terminal's number and its entry. Even marks the row's default.
  type Cell = (nat, Action)

  function CellNumbers(cell: Cell, best: Action): seq<nat> {
    if cell.1 == best then [cell.0 * 2] else [cell.0 * 2 + 1] + Encode(cell.1)
  }

  function CellsNumbers(cells: seq<Cell>, best: Action): seq<nat> {
    if cells == [] then [] else CellNumbers(cells[0], best) + CellsNumbers(cells[1..], best)
  }

  function RowNumbersOf(cells: seq<Cell>, best: Action): seq<nat> {
    if cells == [] then [] else Encode(best) + CellsNumbers(cells, best)
  }

  function Occurrences(cells: seq<Cell>, e: Action): nat {
    if cells == [] then 0 else Occurrences(cells[..|cells| - 1], e) + if cells[|cells| - 1].1 == e then 1 else 0
  }

  function DecodeCells(row: seq<nat>, i: nat, best: Action): Option<seq<Cell>>
    requires i <= |row|
    decreases |row| - i
  {
    if i == |row| then Some([])
    else if row[i] % 2 == 0 then
      match DecodeCells(row, i + 1, best) case None => None case Some(more) => Some([(row[i] / 2, best)] + more)
    else
      match Decode(row, i + 1)
      case None => None
      case Some((e, j)) => match DecodeCells(row, j, best) case None => None case Some(more) => Some([(row[i] / 2, e)] + more)
  }

  function DecodeRow(row: seq<nat>): Option<seq<Cell>> {
    if row == [] then Some([])
    else
      match Decode(row, 0)
      case None => None
      case Some((best, i)) => DecodeCells(row, i, best)
  }

  lemma NoCells(row: seq<nat>, best: Action)
    ensures DecodeCells(row, |row|, best) == Some([])
  {
  }

  lemma CellEven(row: seq<nat>, i: nat, best: Action)
    requires i < |row| && row[i] % 2 == 0 && DecodeCells(row, i + 1, best).Some?
    ensures DecodeCells(row, i, best) == Some([(row[i] / 2, best)] + DecodeCells(row, i + 1, best).value)
  {
    hide Decode;
  }

  lemma CellOdd(row: seq<nat>, i: nat, best: Action, e: Action, j: nat)
    requires i < |row| && row[i] % 2 == 1 && Decode(row, i + 1) == Some((e, j)) && DecodeCells(row, j, best).Some?
    ensures DecodeCells(row, i, best) == Some([(row[i] / 2, e)] + DecodeCells(row, j, best).value)
  {
    hide Decode;
  }

  lemma CellsFirst(cells: seq<Cell>, best: Action)
    requires cells != []
    ensures cells[0].1 == best ==> CellsNumbers(cells, best) == [cells[0].0 * 2] + CellsNumbers(cells[1..], best)
    ensures cells[0].1 != best ==> CellsNumbers(cells, best) == [cells[0].0 * 2 + 1] + Encode(cells[0].1) + CellsNumbers(cells[1..], best)
  {
    hide Encode;
  }

  lemma NoNumbers(best: Action)
    ensures CellsNumbers([], best) == []
  {
  }

  lemma {:induction false} CellsBack(pre: seq<nat>, cells: seq<Cell>, best: Action)
    requires forall i | 0 <= i < |cells| :: Codable(cells[i].1)
    ensures DecodeCells(pre + CellsNumbers(cells, best), |pre|, best) == Some(cells)
    decreases |cells|
  {
    hide Encode, Decode, DecodeCells, CellsNumbers, Codable;
    var row := pre + CellsNumbers(cells, best);
    NoNumbers(best);
    if cells != [] {
      CellsFirst(cells, best);
      var cell, rest := cells[0], CellsNumbers(cells[1..], best);
      assert cells == [cell] + cells[1..];
      if cell.1 == best {
        assert row == (pre + [cell.0 * 2]) + rest && row[|pre|] == cell.0 * 2;
        CellsBack(pre + [cell.0 * 2], cells[1..], best);
        CellEven(row, |pre|, best);
      } else {
        var pre' := pre + [cell.0 * 2 + 1];
        assert row == pre' + Encode(cell.1) + rest == (pre' + Encode(cell.1)) + rest && row[|pre|] == cell.0 * 2 + 1;
        DecodeBack(pre', cell.1, rest);
        CellsBack(pre' + Encode(cell.1), cells[1..], best);
        CellOdd(row, |pre|, best, cell.1, |pre' + Encode(cell.1)|);
      }
    } else {
      assert row == pre;
      NoCells(row, best);
    }
  }

  /** A row is read back whatever entry was chosen as its default. */
  lemma RowBack(cells: seq<Cell>, best: Action)
    requires (forall i | 0 <= i < |cells| :: Codable(cells[i].1)) && Codable(best)
    ensures DecodeRow(RowNumbersOf(cells, best)) == Some(cells)
  {
    hide Encode, Decode, DecodeCells, CellsNumbers, Codable;
    if cells != [] {
      var rest := CellsNumbers(cells, best);
      assert [] + Encode(best) + rest == Encode(best) + rest;
      DecodeBack([], best, rest);
      CellsBack(Encode(best), cells, best);
    }
  }

  // ----- serialising -----

  // A row in the order its entries were made.
  type OrderedRow = seq<(Terminal, Action)>

  predicate IsDefault(e: Action) {
    e.IgnoreToken? || e.ErrorToken?
  }

  // The cells that are written: all but the default entries.
  function CellsOf(row: OrderedRow, index: map<Terminal, nat>): seq<Cell>
    requires forall i | 0 <= i < |row| :: row[i].0 in index
  {
    if row == [] then []
    else
      var last := row[|row| - 1];
      CellsOf(row[..|row| - 1], index) + if IsDefault(last.1) then [] else [(index[last.0], last.1)]
  }

  // The entry that recurs most often.
  ghost predicate MostFrequent(cells: seq<Cell>, best: Action) {
    Occurrences(cells, best) > 0 && forall e :: Occurrences(cells, e) <= Occurrences(cells, best)
  }

  // How often each entry was seen, under its key.
  ghost predicate Counted(cells: seq<Cell>, order: seq<string>, counts: map<string, (Action, nat)>) {
    && (forall k :: k in order <==> k in counts)
    && (forall k | k in counts :: k == Key(counts[k].0) && counts[k].1 == Occurrences(cells, counts[k].0) > 0)
    && (forall e | Occurrences(cells, e) > 0 :: Key(e) in counts)
  }

  lemma CountedAt(cells: seq<Cell>, order: seq<string>, counts: map<string, (Action, nat)>, e: Action)
    requires Counted(cells, order, counts)
    ensures Key(e) in counts ==> counts[Key(e)] == (e, Occurrences(cells, e))
    ensures Key(e) !in counts ==> Occurrences(cells, e) == 0
  {
    hide Key, Occurrences;
    if Key(e) in counts { KeyInjective(e, counts[Key(e)].0); }
  }

  lemma CountedMore(cells: seq<Cell>, order: seq<string>, counts: map<string, (Action, nat)>, cell: Cell)
    requires Counted(cells, order, counts)
    ensures var k := Key(cell.1);
      if k in counts then Counted(cells + [cell], order, counts[k := (counts[k].0, counts[k].1 + 1)])
      else Counted(cells + [cell], order + [k], counts[k := (cell.1, 1)])
  {
    hide Key, Occurrences;
    var k := Key(cell.1);
    CountedAt(cells, order, counts, cell.1);
    forall e ensures Occurrences(cells + [cell], e) == Occurrences(cells, e) + if cell.1 == e then 1 else 0 { OneMore(cells, cell, e); }
    forall q | q in counts && q != k ensures counts[q].0 != cell.1 { KeyInjective(counts[q].0, cell.1); }
  }

  lemma OneMore(cells: seq<Cell>, cell: Cell, e: Action)
    ensures Occurrences(cells + [cell], e) == Occurrences(cells, e) + if cell.1 == e then 1 else 0
  {
    assert (cells + [cell])[..|cells|] == cells;
  }

  lemma CountsBound(cells: seq<Cell>, order: seq<string>, counts: map<string, (Action, nat)>, best: Action)
    requires Counted(cells, order, counts) && Key(best) in counts
    requires forall k | k in order :: k in counts && counts[k].1 <= Occurrences(cells, best)
    ensures MostFrequent(cells, best)
  {
    hide Key, Occurrences;
    CountedAt(cells, order, counts, best);
    forall e ensures Occurrences(cells, e) <= Occurrences(cells, best) { CountedAt(cells, order, counts, e); }
  }

  lemma NothingCounted()
    ensures Counted([], [], map[])
  {
  }

  lemma CellsHead(cells: seq<Cell>, best: Action)
    requires cells != []
    ensures CellsNumbers(cells, best) == CellNumbers(cells[0], best) + CellsNumbers(cells[1..], best)
  {
    hide CellNumbers;
  }

  lemma {:induction false} CellsPrefix(cells: seq<Cell>, k: nat, best: Action)
    requires k < |cells|
    ensures CellsNumbers(cells[..k + 1], best) == CellsNumbers(cells[..k], best) + CellNumbers(cells[k], best)
    decreases k
  {
    hide CellNumbers, CellsNumbers;
    var head := CellNumbers(cells[0], best);
    CellsHead(cells[..k + 1], best);
    if k > 0 {
      CellsHead(cells[..k], best);
      assert cells[..k + 1][1..] == cells[1..][..k] && cells[..k][1..] == cells[1..][..k - 1];
      CellsPrefix(cells[1..], k - 1, best);
    } else {
      NoNumbers(best);
      assert cells[..1][1..] == [] && cells[..0] == [] && head + [] == [] + head;
    }
  }

  method CountEntries(cells: seq<Cell>) returns (order: seq<string>, counts: map<string, (Action, nat)>)
    ensures Counted(cells, order, counts) && (cells != [] ==> order != [])
  {
    hide Key, Counted, Occurrences;
    order, counts := [], map[];
    NothingCounted();
    for i := 0 to |cells|
      invariant Counted(cells[..i], order, counts) && (if i == 0 then counts == map[] else order != [])
    {
      assert cells[..i + 1] == cells[..i] + [cells[i]];
      CountedMore(cells[..i], order, counts, cells[i]);
      var key := Key(cells[i].1);
      if key in counts {
        counts := counts[key := (counts[key].0, counts[key].1 + 1)];
      } else {
        order, counts := order + [key], counts[key := (cells[i].1, 1)];
      }
    }
    assert cells[..|cells|] == cells;
  }

  method RealCells(row: OrderedRow, index: map<Terminal, nat>) returns (cells: seq<Cell>)
    requires forall i | 0 <= i < |row| :: row[i].0 in index
    ensures cells == CellsOf(row, index)
  {
    cells := [];
    for i := 0 to |row|
      invariant cells == CellsOf(row[..i], index)
    {
      assert row[..i + 1][..i] == row[..i];
      if !IsDefault(row[i].1) { cells := cells + [(index[row[i].0], row[i].1)]; }
    }
    assert row[..|row|] == row;
  }

  /** One row: its most frequent entry first, then every cell. */
  method SerializeRow(row: OrderedRow, index: map<Terminal, nat>) returns (out: seq<nat>, best: Action)
    requires forall i | 0 <= i < |row| :: row[i].0 in index
    ensures out == RowNumbersOf(CellsOf(row, index), best)
    ensures CellsOf(row, index) != [] ==> MostFrequent(CellsOf(row, index), best)
  {
    hide Key, Counted, MostFrequent, Occurrences, Encode, CellsNumbers, CellsOf;
    var cells := RealCells(row, index);
    if cells == [] { return [], AcceptAll; }
    var order, counts := CountEntries(cells);
    best := Best(cells, order, counts);
    out := Encode(best);
    NoNumbers(best);
    for i := 0 to |cells|
      invariant out == Encode(best) + CellsNumbers(cells[..i], best)
    {
      CellsPrefix(cells, i, best);
      KeyInjective(cells[i].1, best);
      if Key(cells[i].1) == Key(best) {
        out := out + [cells[i].0 * 2];
      } else {
        out := out + ([cells[i].0 * 2 + 1] + Encode(cells[i].1));
      }
    }
    assert cells[..|cells|] == cells;
  }

  method Best(cells: seq<Cell>, order: seq<string>, counts: map<string, (Action, nat)>) returns (best: Action)
    requires Counted(cells, order, counts) && order != []
    ensures MostFrequent(cells, best)
  {
    hide Key, Counted, MostFrequent, Occurrences;
    InOrder(cells, order, counts);
    var most := counts[order[0]];
    ghost var key := order[0];
    for i := 0 to |order|
      invariant key in counts && most == counts[key]
      invariant forall j | 0 <= j < i :: counts[order[j]].1 <= most.1
    {
      if counts[order[i]].1 > most.1 {
        most, key := counts[order[i]], order[i];
      }
    }
    best := most.0;
    AtKey(cells, order, counts, key);
    forall k | k in order ensures k in counts && counts[k].1 <= Occurrences(cells, best) {
      var j :| 0 <= j < |order| && order[j] == k;
    }
    CountsBound(cells, order, counts, best);
  }

  lemma InOrder(cells: seq<Cell>, order: seq<string>, counts: map<string, (Action, nat)>)
    requires Counted(cells, order, counts)
    ensures forall i | 0 <= i < |order| :: order[i] in counts
  {
  }

  lemma AtKey(cells: seq<Cell>, order: seq<string>, counts: map<string, (Action, nat)>, key: string)
    requires Counted(cells, order, counts) && key in counts
    ensures key == Key(counts[key].0) && counts[key].1 == Occurrences(cells, counts[key].0)
  {
  }

  // ----- deserialising -----

  // Cells as a row; a later one for the same terminal replaces an earlier one.
  function CellMap(terms: seq<Terminal>, cells: seq<Cell>): Row
    requires forall i | 0 <= i < |cells| :: cells[i].0 < |terms|
  {
    if cells == [] then map[]
    else
      var last := cells[|cells| - 1];
      CellMap(terms, cells[..|cells| - 1])[terms[last.0] := last.1]
  }

  // The entries of a row that are not defaults.
  function RealMap(row: OrderedRow): Row {
    if row == [] then map[]
    else
      var last := row[|row| - 1];
      var before := RealMap(row[..|row| - 1]);
      if IsDefault(last.1) then before else before[last.0 := last.1]
  }

  // `index` numbers the terminals in their order.
  ghost predicate Indexed(terms: seq<Terminal>, index: map<Terminal, nat>) {
    forall t | t in index :: index[t] < |terms| && terms[index[t]] == t
  }

  lemma {:induction false} CellsInside(row: OrderedRow, terms: seq<Terminal>, index: map<Terminal, nat>)
    requires Indexed(terms, index) && forall i | 0 <= i < |row| :: row[i].0 in index
    ensures forall i | 0 <= i < |CellsOf(row, index)| :: CellsOf(row, index)[i].0 < |terms|
    decreases |row|
  {
    if row != [] { CellsInside(row[..|row| - 1], terms, index); }
  }

  // How the last entry of a row is written.
  lemma LastCell(row: OrderedRow, index: map<Terminal, nat>)
    requires row != [] && forall i | 0 <= i < |row| :: row[i].0 in index
    ensures var last, before := row[|row| - 1], CellsOf(row[..|row| - 1], index);
      CellsOf(row, index) == if IsDefault(last.1) then before else before + [(index[last.0], last.1)]
  {
  }

  lemma CellAdded(terms: seq<Terminal>, cells: seq<Cell>, cell: Cell)
    requires cell.0 < |terms| && forall i | 0 <= i < |cells| :: cells[i].0 < |terms|
    ensures CellMap(terms, cells + [cell]) == CellMap(terms, cells)[terms[cell.0] := cell.1]
  {
    assert (cells + [cell])[..|cells|] == cells;
  }

  lemma {:induction false} CellsAreReal(row: OrderedRow, terms: seq<Terminal>, index: map<Terminal, nat>)
    requires Indexed(terms, index) && forall i | 0 <= i < |row| :: row[i].0 in index
    ensures forall i | 0 <= i < |CellsOf(row, index)| :: CellsOf(row, index)[i].0 < |terms|
    ensures CellMap(terms, CellsOf(row, index)) == RealMap(row)
    decreases |row|
  {
    hide CellMap, CellsOf;
    CellsInside(row, terms, index);
    if row != [] {
      var last, init := row[|row| - 1], row[..|row| - 1];
      CellsAreReal(init, terms, index);
      LastCell(row, index);
      if !IsDefault(last.1) { CellAdded(terms, CellsOf(init, index), (index[last.0], last.1)); }
    } else {
      NoneReal(terms, index);
    }
  }

  lemma NoneReal(terms: seq<Terminal>, index: map<Terminal, nat>)
    ensures CellMap(terms, CellsOf([], index)) == RealMap([])
  {
  }

  // The loop of a row being read.
  method DeserializeRow(terms: seq<Terminal>, row: seq<nat>) returns (m: Row)
    requires DecodeRow(row).Some? && forall i | 0 <= i < |DecodeRow(row).value| :: DecodeRow(row).value[i].0 < |terms|
    ensures m == CellMap(terms, DecodeRow(row).value)
  {
    hide Decode, DecodeCells, CellMap;
    m := map[];
    ghost var cells := DecodeRow(row).value;
    NoMap(terms);
    if row == [] { return; }
    var (best, i) := Decode(row, 0).value;
    ghost var seen := 0;
    assert cells[0..] == cells;
    while i < |row|
      invariant i <= |row| && seen <= |cells| && DecodeCells(row, i, best) == Some(cells[seen..])
      invariant m == CellMap(terms, cells[..seen])
    {
      ghost var cell := NextCell(row, i, best, cells, seen);
      var tagged := row[i];
      var entry := best;
      i := i + 1;
      if tagged % 2 == 1 {
        var (e, j) := Decode(row, i).value;
        entry, i := e, j;
      }
      MapMore(terms, cells, seen);
      m := m[terms[tagged / 2] := entry];
      seen := seen + 1;
    }
    NoCells(row, best);
    assert cells[..|cells|] == cells;
  }

  lemma NoMap(terms: seq<Terminal>)
    ensures CellMap(terms, []) == map[]
  {
  }

  lemma MapMore(terms: seq<Terminal>, cells: seq<Cell>, n: nat)
    requires n < |cells| && forall i | 0 <= i < |cells| :: cells[i].0 < |terms|
    ensures CellMap(terms, cells[..n + 1]) == CellMap(terms, cells[..n])[terms[cells[n].0] := cells[n].1]
  {
    assert cells[..n + 1][..n] == cells[..n];
  }

  lemma NextCell(row: seq<nat>, i: nat, best: Action, cells: seq<Cell>, seen: nat) returns (cell: Cell)
    requires i < |row| && seen <= |cells| && DecodeCells(row, i, best) == Some(cells[seen..])
    ensures seen < |cells| && cell == cells[seen] && cell.0 == row[i] / 2
    ensures row[i] % 2 == 0 ==> cell.1 == best && DecodeCells(row, i + 1, best) == Some(cells[seen + 1..])
    ensures row[i] % 2 == 1 ==> Decode(row, i + 1).Some? && cell.1 == Decode(row, i + 1).value.0
    ensures row[i] % 2 == 1 ==> DecodeCells(row, Decode(row, i + 1).value.1, best) == Some(cells[seen + 1..])
  {
    hide Decode;
    cell := cells[seen..][0];
    assert cells[seen + 1..] == cells[seen..][1..];
  }

  // ----- goto rows -----

  type OrderedGoto = seq<(NonTerminal, nat)>

  function GotoNumbers(row: OrderedGoto, index: map<NonTerminal, nat>): seq<nat>
    requires forall i | 0 <= i < |row| :: row[i].0 in index
  {
    if row == [] then []
    else
      var last := row[|row| - 1];
      GotoNumbers(row[..|row| - 1], index) + [index[last.0], last.1]
  }

  function GotoMap(row: OrderedGoto): GotoRow {
    if row == [] then map[]
    else
      var last := row[|row| - 1];
      GotoMap(row[..|row| - 1])[last.0 := last.1]
  }

  // The pairs of a row, a later one replacing an earlier one.
  function PairsMap(names: seq<NonTerminal>, row: seq<nat>): GotoRow
    requires |row| % 2 == 0 && forall i | 0 <= i < |row| && i % 2 == 0 :: row[i] < |names|
  {
    if row == [] then map[]
    else
      var n := |row| - 2;
      PairsMap(names, row[..n])[names[row[n]] := row[n + 1]]
  }

  ghost predicate NamesIndexed(names: seq<NonTerminal>, index: map<NonTerminal, nat>) {
    forall n | n in index :: index[n] < |names| && names[index[n]] == n
  }

  lemma {:induction false} GotoBack(row: OrderedGoto, names: seq<NonTerminal>, index: map<NonTerminal, nat>)
    requires NamesIndexed(names, index) && forall i | 0 <= i < |row| :: row[i].0 in index
    ensures var nums := GotoNumbers(row, index);
      && |nums| % 2 == 0 && (forall i | 0 <= i < |nums| && i % 2 == 0 :: nums[i] < |names|)
      && PairsMap(names, nums) == GotoMap(row)
    decreases |row|
  {
    if row != [] {
      GotoBack(row[..|row| - 1], names, index);
      var nums := GotoNumbers(row, index);
      assert nums[..|nums| - 2] == GotoNumbers(row[..|row| - 1], index);
    }
  }

  method DeserializeGoto(names: seq<NonTerminal>, row: seq<nat>) returns (m: GotoRow)
    requires |row| % 2 == 0 && forall i | 0 <= i < |row| && i % 2 == 0 :: row[i] < |names|
    ensures m == PairsMap(names, row)
  {
    m := map[];
    var i := 0;
    while i < |row|
      invariant i <= |row| && i % 2 == 0 && m == PairsMap(names, row[..i])
    {
      assert row[..i + 2][..i] == row[..i];
      m := m[names[row[i]] := row[i + 1]];
      i := i + 2;
    }
    assert row[..|row|] == row;
  }

  // ----- tables -----

  ghost predicate Serializable(rows: seq<OrderedRow>, gotos: seq<OrderedGoto>, terms: seq<Terminal>, index: map<Terminal, nat>,
                               names: seq<NonTerminal>, ids: map<NonTerminal, nat>) {
    && |rows| == |gotos| && Indexed(terms, index) && NamesIndexed(names, ids)
    && (forall s | 0 <= s < |rows| :: RowFits(rows[s], index)) && (forall s | 0 <= s < |gotos| :: GotoFits(gotos[s], ids))
  }

  ghost predicate RowFits(row: OrderedRow, index: map<Terminal, nat>) {
    forall i | 0 <= i < |row| :: row[i].0 in index && (IsDefault(row[i].1) || Codable(row[i].1))
  }

  ghost predicate GotoFits(row: OrderedGoto, ids: map<NonTerminal, nat>) {
    forall i | 0 <= i < |row| :: row[i].0 in ids
  }

  lemma {:induction false} CellsCodable(row: OrderedRow, index: map<Terminal, nat>)
    requires RowFits(row, index)
    ensures forall i | 0 <= i < |CellsOf(row, index)| :: Codable(CellsOf(row, index)[i].1)
    decreases |row|
  {
    hide Codable;
    if row != [] { CellsCodable(row[..|row| - 1], index); }
  }

  lemma {:induction false} OccursIn(cells: seq<Cell>, e: Action)
    requires Occurrences(cells, e) > 0
    ensures exists i :: 0 <= i < |cells| && cells[i].1 == e
  {
    var n := |cells| - 1;
    if cells[n].1 != e {
      OccursIn(cells[..n], e);
      var i :| 0 <= i < n && cells[..n][i].1 == e;
      assert cells[i].1 == e;
    }
  }

  // The row at `s` of what was written gives back the row at `s` of what there was.
  ghost predicate GivesBack(row: OrderedRow, numbers: seq<nat>, terms: seq<Terminal>) {
    var back := DecodeRow(numbers);
    back.Some? && (forall i | 0 <= i < |back.value| :: back.value[i].0 < |terms|) && CellMap(terms, back.value) == RealMap(row)
  }

  ghost predicate GivesGoto(row: OrderedGoto, numbers: seq<nat>, names: seq<NonTerminal>) {
    && |numbers| % 2 == 0 && (forall i | 0 <= i < |numbers| && i % 2 == 0 :: numbers[i] < |names|)
    && PairsMap(names, numbers) == GotoMap(row)
  }

  lemma RowGivesBack(row: OrderedRow, terms: seq<Terminal>, index: map<Terminal, nat>, best: Action)
    requires Indexed(terms, index) && RowFits(row, index)
    requires CellsOf(row, index) != [] ==> MostFrequent(CellsOf(row, index), best)
    ensures GivesBack(row, RowNumbersOf(CellsOf(row, index), best), terms)
  {
    hide Codable, Occurrences;
    var cells := CellsOf(row, index);
    CellsCodable(row, index);
    if cells == [] {
      CellsAreReal(row, terms, index);
    } else {
      OccursIn(cells, best);
      RowBack(cells, best);
      CellsAreReal(row, terms, index);
    }
  }

  /** Serialised tables give every row back: action rows but for their default entries, goto rows whole. */
  method SerializeTables(rows: seq<OrderedRow>, gotos: seq<OrderedGoto>, terms: seq<Terminal>, index: map<Terminal, nat>,
                         names: seq<NonTerminal>, ids: map<NonTerminal, nat>) returns (t: TableCache.Tables)
    requires Serializable(rows, gotos, terms, index, names, ids)
    ensures |t.action| == |rows| && |t.goto| == |gotos|
    ensures forall s | 0 <= s < |rows| :: GivesBack(rows[s], t.action[s], terms)
    ensures forall s | 0 <= s < |gotos| :: GivesGoto(gotos[s], t.goto[s], names)
  {
    hide GivesBack, GivesGoto, Indexed, NamesIndexed, CellsOf, RowNumbersOf, MostFrequent, Codable;
    var action: seq<seq<nat>>, goto: seq<seq<nat>> := [], [];
    for s := 0 to |rows|
      invariant |action| == s && forall q | 0 <= q < s :: GivesBack(rows[q], action[q], terms)
    {
      assert RowFits(rows[s], index);
      var out, best := SerializeRow(rows[s], index);
      RowGivesBack(rows[s], terms, index, best);
      action := action + [out];
    }
    for s := 0 to |gotos|
      invariant |goto| == s && forall q | 0 <= q < s :: GivesGoto(gotos[q], goto[q], names)
    {
      assert GotoFits(gotos[s], ids);
      GotoBack(gotos[s], names, ids);
      GotoGiven(gotos[s], names, ids);
      goto := goto + [GotoNumbers(gotos[s], ids)];
    }
    t := TableCache.Tables(action, goto);
  }

  lemma GotoGiven(row: OrderedGoto, names: seq<NonTerminal>, index: map<NonTerminal, nat>)
    requires NamesIndexed(names, index) && GotoFits(row, index)
    ensures GivesGoto(row, GotoNumbers(row, index), names)
  {
    GotoBack(row, names, index);
  }

  method DeserializeTables(t: TableCache.Tables, terms: seq<Terminal>, names: seq<NonTerminal>, always: seq<Terminal>, skip: seq<Terminal>,
                           ghost rows: seq<OrderedRow>, ghost gotos: seq<OrderedGoto>) returns (action: seq<Row>, goto: seq<GotoRow>)
    requires |t.action| == |rows| && |t.goto| == |gotos|
    requires forall s | 0 <= s < |rows| :: GivesBack(rows[s], t.action[s], terms)
    requires forall s | 0 <= s < |gotos| :: GivesGoto(gotos[s], t.goto[s], names)
    ensures |action| == |rows| && forall s | 0 <= s < |rows| :: action[s] == Always(RealMap(rows[s]), always, skip)
    ensures |goto| == |gotos| && forall s | 0 <= s < |gotos| :: goto[s] == GotoMap(gotos[s])
  {
    hide Always, RealMap, GotoMap, DecodeRow, CellMap, PairsMap;
    action, goto := [], [];
    for s := 0 to |t.action|
      invariant |action| == s && forall q | 0 <= q < s :: action[q] == Always(RealMap(rows[q]), always, skip)
    {
      assert GivesBack(rows[s], t.action[s], terms);
      var row := DeserializeRow(terms, t.action[s]);
      row := AddDefaults(row, always, ErrorToken);
      row := AddDefaults(row, skip, IgnoreToken);
      AlwaysIs(RealMap(rows[s]), always, skip);
      action := action + [row];
    }
    for s := 0 to |t.goto|
      invariant |goto| == s && forall q | 0 <= q < s :: goto[q] == GotoMap(gotos[q])
    {
      assert GivesGoto(gotos[s], t.goto[s], names);
      var row := DeserializeGoto(names, t.goto[s]);
      goto := goto + [row];
    }
  }

  lemma AlwaysIs(row: Row, always: seq<Terminal>, skip: seq<Terminal>)
    ensures Always(row, always, skip) == WithDefaults(WithDefaults(row, always, ErrorToken), skip, IgnoreToken)
  {
  }

  /** Through the cache and back: tables that were serialised, saved, loaded and deserialised are what they
      were, with the default entries put back. */
  method ThroughTheCache(g: TableCache.Origin, rows: seq<OrderedRow>, gotos: seq<OrderedGoto>, terms: seq<Terminal>, index: map<Terminal, nat>,
                         names: seq<NonTerminal>, ids: map<NonTerminal, nat>, always: seq<Terminal>, skip: seq<Terminal>)
      returns (action: seq<Row>, goto: seq<GotoRow>)
    requires TableCache.OriginOk(g) && Serializable(rows, gotos, terms, index, names, ids)
    ensures |action| == |rows| && forall s | 0 <= s < |rows| :: action[s] == Always(RealMap(rows[s]), always, skip)
    ensures |goto| == |gotos| && forall s | 0 <= s < |gotos| :: goto[s] == GotoMap(gotos[s])
  {
    hide GivesBack, GivesGoto, Indexed, NamesIndexed, RowFits, GotoFits, Always, RealMap, GotoMap, TableCache.Load, TableCache.Saved;
    var t := SerializeTables(rows, gotos, terms, index, names, ids);
    var writer := new TableCache.Writer();
    writer.Save(g, t);
    var loaded := TableCache.LoadTables(writer.bytes, g);
    TableCache.SavedLoads(g, t, []);
    assert TableCache.Saved(g, t) + [] == TableCache.Saved(g, t);
    action, goto := DeserializeTables(loaded.value, terms, names, always, skip, rows, gotos);
  }
}
