/** Order-insensitive comparison of two result tables, as in `result_comparator.py`.
    Lower-casing and rounding are arbitrary functions. */
module ResultComparator {

  datatype Value = Null | Boolean(holds: bool) | Number(amount: real) | Infinite(positive: bool) | Other(text: string)

  /** What a value is hashed and compared by. Python holds True and 1.0, and False and
      0.0, to be the same key. */
  datatype Key = NoKey | NumberKey(amount: real) | InfiniteKey(positive: bool) | TextKey(text: string)

  datatype Folding = Folding(lower: string -> string, round: real -> real)

  datatype Table = Table(columns: seq<string>, rows: seq<seq<Value>>)

  datatype Verdict =
    | Same
    | ColumnMismatch(missing: seq<string>, unexpected: seq<string>)
    | RowMismatch(reference: nat, generated: nat)
    | IndexError

  /** Every row has a value for every column. */
  predicate Rectangular(t: Table) { forall row :: row in t.rows ==> |row| == |t.columns| }

  predicate Distinct<T(==)>(s: seq<T>) { forall i, j :: 0 <= i < j < |s| ==> s[i] != s[j] }

  function KeyOf(f: Folding, v: Value): Key {
    match v
    case Null => NoKey
    case Boolean(holds) => NumberKey(if holds then 1.0 else 0.0)
    case Number(amount) => NumberKey(f.round(amount))
    case Infinite(positive) => InfiniteKey(positive)
    case Other(text) => TextKey(text)
  }

  function Lowered(f: Folding, columns: seq<string>): (r: seq<string>)
    ensures |r| == |columns|
  {
    seq(|columns|, i requires 0 <= i < |columns| => f.lower(columns[i]))
  }

  function Absent(wanted: seq<string>, offered: seq<string>): (r: seq<string>)
    ensures r == [] <==> forall c :: c in wanted ==> c in offered
    ensures forall c :: c in r <==> c in wanted && c !in offered
  {
    if wanted == [] then []
    else
      assert forall c :: c in wanted <==> c == wanted[0] || c in wanted[1..];
      (if wanted[0] in offered then [] else [wanted[0]]) + Absent(wanted[1..], offered)
  }

  /** The first place of a column. */
  function Place(columns: seq<string>, c: string): (i: nat)
    requires c in columns
    ensures i < |columns| && columns[i] == c && forall j :: 0 <= j < i ==> columns[j] != c
  {
    if columns[0] == c then 0 else Place(columns[1..], c) + 1
  }

  function Map<S, T>(g: S -> T, s: seq<S>): (r: seq<T>)
    ensures |r| == |s| && forall i :: 0 <= i < |s| ==> r[i] == g(s[i])
  {
    if s == [] then [] else [g(s[0])] + Map(g, s[1..])
  }

  /** Every row is long enough to be read at every place that `wanted` leads to; cells
      behind them are never looked at. */
  predicate Readable(columns: seq<string>, wanted: seq<string>, rows: seq<seq<Value>>) {
    forall row :: row in rows ==> forall c :: c in wanted && c in columns ==> Place(columns, c) < |row|
  }

  /** A row read in the order of `wanted`. */
  function Project(f: Folding, columns: seq<string>, wanted: seq<string>, row: seq<Value>): (r: seq<Key>)
    ensures |r| == |wanted|
  {
    seq(|wanted|, i requires 0 <= i < |wanted| =>
      if wanted[i] in columns && Place(columns, wanted[i]) < |row| then KeyOf(f, row[Place(columns, wanted[i])])
      else NoKey)
  }

  function KeysOf(f: Folding, row: seq<Value>): (r: seq<Key>)
    ensures |r| == |row|
  {
    seq(|row|, i requires 0 <= i < |row| => KeyOf(f, row[i]))
  }

  /** `compare` */
  function Compare(f: Folding, reference: Table, generated: Table): Verdict {
    var wanted := Lowered(f, reference.columns);
    var offered := Lowered(f, generated.columns);
    var missing := Absent(wanted, offered);
    var unexpected := Absent(offered, wanted);
    if missing != [] || unexpected != [] then ColumnMismatch(missing, unexpected)
    else if !Readable(offered, wanted, generated.rows) then IndexError
    else if multiset(Map(row => KeysOf(f, row), reference.rows))
         == multiset(Map(row => Project(f, offered, wanted, row), generated.rows)) then Same
    else RowMismatch(|reference.rows|, |generated.rows|)
  }

  /** Two cells count as the same value: numbers that round alike, a truth value and the
      number that it stands for, and else only what is equal. */
  predicate SameValue(f: Folding, u: Value, v: Value) {
    match (u, v)
    case (Number(a), Number(b)) => f.round(a) == f.round(b)
    case (Boolean(x), Number(b)) => f.round(b) == (if x then 1.0 else 0.0)
    case (Number(a), Boolean(y)) => f.round(a) == (if y then 1.0 else 0.0)
    case _ => u == v
  }

  /** The keys tell exactly which values are the same; no value is ever the same as a
      missing one. */
  lemma KeysTellValues(f: Folding, u: Value, v: Value)
    ensures KeyOf(f, u) == KeyOf(f, v) <==> SameValue(f, u, v)
    ensures KeyOf(f, u) == KeyOf(f, Null) <==> u == Null
  {
  }

  /** The row ends before place `i`, the first of its column. */
  predicate EndsShort(columns: seq<string>, row: seq<Value>, i: nat) {
    |row| <= i < |columns| && forall j :: 0 <= j < i ==> columns[j] != columns[i]
  }

  /** What a refusal says is so: the columns missing and unexpected, the number of rows on
      either side; and reading fails exactly if, the columns being the same, some
      generated row ends before the place of a column. */
  lemma RefusalIsExact(f: Folding, reference: Table, generated: Table)
    ensures var wanted, offered := Lowered(f, reference.columns), Lowered(f, generated.columns);
            var same := (forall c :: c in wanted ==> c in offered) && forall c :: c in offered ==> c in wanted;
            var v := Compare(f, reference, generated);
            && (v.ColumnMismatch? <==> !same)
            && (v.ColumnMismatch? ==>
                 (forall c :: c in v.missing <==> c in wanted && c !in offered)
                 && (forall c :: c in v.unexpected <==> c in offered && c !in wanted))
            && (v.IndexError? <==> same && exists row, i: nat :: row in generated.rows && EndsShort(offered, row, i))
            && (v.RowMismatch? ==> v.reference == |reference.rows| && v.generated == |generated.rows|)
  {
    hide KeyOf, Map, Project, KeysOf, Lowered, Absent, Readable;
    var wanted, offered := Lowered(f, reference.columns), Lowered(f, generated.columns);
    if (forall c :: c in wanted ==> c in offered) && forall c :: c in offered ==> c in wanted {
      UnreadableExactly(offered, wanted, generated.rows);
    }
  }

  lemma UnreadableExactly(offered: seq<string>, wanted: seq<string>, rows: seq<seq<Value>>)
    requires (forall c :: c in wanted ==> c in offered) && forall c :: c in offered ==> c in wanted
    ensures !Readable(offered, wanted, rows) <==> exists row, i: nat :: row in rows && EndsShort(offered, row, i)
  {
    if row, i: nat :| row in rows && EndsShort(offered, row, i) {
      assert offered[i] in offered && Place(offered, offered[i]) == i;
    }
    if !Readable(offered, wanted, rows) {
      var row, c :| row in rows && c in wanted && c in offered && Place(offered, c) >= |row|;
      assert EndsShort(offered, row, Place(offered, c));
    }
  }

  // ------------------------------------------------------------- bags and reorderings

  /** `p` rearranges the places `0..n`. */
  predicate Permutes(p: seq<nat>, n: nat) { |p| == n && Distinct(p) && forall i :: 0 <= i < n ==> p[i] < n }

  function Reordered<T>(s: seq<T>, p: seq<nat>): (r: seq<T>)
    requires Permutes(p, |s|)
    ensures |r| == |s|
  {
    seq(|s|, i requires 0 <= i < |s| => s[p[i]])
  }

  /** `i` as a place after the place `k` has been taken out, and back. */
  function Closed(k: nat, i: nat): nat { if i <= k then i else i - 1 }

  function Reopened(k: nat, i: nat): nat { if i < k then i else i + 1 }

  function Without<T>(s: seq<T>, k: nat): (r: seq<T>)
    requires k < |s|
    ensures |r| == |s| - 1 && multiset(s) == multiset{s[k]} + multiset(r)
    ensures forall i :: 0 <= i < |r| ==> r[i] == s[Reopened(k, i)]
  {
    assert s == s[..k] + [s[k]] + s[k + 1..];
    s[..k] + s[k + 1..]
  }

  lemma TailPermutes(p: seq<nat>, n: nat) returns (q: seq<nat>)
    requires n > 0 && Permutes(p, n)
    ensures Permutes(q, n - 1)
    ensures forall i :: 0 <= i < |q| ==> Reopened(p[0], q[i]) == p[i + 1]
  {
    q := seq(n - 1, i requires 0 <= i < n - 1 => Closed(p[0], p[i + 1]));
    forall i | 0 <= i < n - 1 ensures Reopened(p[0], q[i]) == p[i + 1] { assert p[0] != p[i + 1]; }
    forall i, j | 0 <= i < j < n - 1 ensures q[i] != q[j] { assert p[i + 1] != p[j + 1]; }
  }

  lemma ConsPermutes(k: nat, q: seq<nat>, n: nat) returns (p: seq<nat>)
    requires k < n && Permutes(q, n - 1)
    ensures Permutes(p, n) && p[0] == k
    ensures forall i :: 0 <= i < |q| ==> p[i + 1] == Reopened(k, q[i])
  {
    p := [k] + seq(|q|, i requires 0 <= i < |q| => Reopened(k, q[i]));
    forall i, j | 0 <= i < j < n ensures p[i] != p[j] {
      if i > 0 { assert q[i - 1] != q[j - 1]; }
    }
  }

  /** Rearranging keeps the bag. */
  lemma {:induction false} ReorderedKeepsBag<T>(s: seq<T>, p: seq<nat>)
    requires Permutes(p, |s|)
    ensures multiset(Reordered(s, p)) == multiset(s)
  {
    if s == [] { return; }
    var rest := Without(s, p[0]);
    var q := TailPermutes(p, |s|);
    ReorderedKeepsBag(rest, q);
    assert Reordered(s, p) == [s[p[0]]] + Reordered(rest, q);
  }

  lemma TakeOutHead<T>(s: seq<T>, t: seq<T>) returns (k: nat)
    requires multiset(s) == multiset(t) && s != []
    ensures k < |t| && t[k] == s[0] && multiset(s[1..]) == multiset(Without(t, k))
  {
    assert s[0] in multiset(t);
    k :| 0 <= k < |t| && t[k] == s[0];
    assert s == [s[0]] + s[1..];
    assert multiset(s[1..]) == multiset(s) - multiset{s[0]};
    assert multiset(Without(t, k)) == multiset(t) - multiset{s[0]};
  }

  /** Lists of the same bag are rearrangements of each other. */
  lemma {:induction false} SameBagReorders<T>(s: seq<T>, t: seq<T>) returns (p: seq<nat>)
    requires multiset(s) == multiset(t)
    ensures |s| == |t| && Permutes(p, |t|) && Reordered(t, p) == s
  {
    assert |multiset(s)| == |s| && |multiset(t)| == |t|;
    if s == [] { p := []; return; }
    var k := TakeOutHead(s, t);
    var rest := Without(t, k);
    var q := SameBagReorders(s[1..], rest);
    p := ConsPermutes(k, q, |t|);
    forall i | 0 <= i < |s| ensures Reordered(t, p)[i] == s[i] {
      if i > 0 { assert Reordered(rest, q)[i - 1] == s[1..][i - 1]; }
    }
  }

  /** An injective image of two lists is the same bag exactly when the lists are. */
  lemma {:induction false} SameBagSameImage<S, T>(g: S -> T, s: seq<S>, t: seq<S>)
    requires forall x, y :: x in s && y in t && g(x) == g(y) ==> x == y
    ensures multiset(s) == multiset(t) <==> multiset(Map(g, s)) == multiset(Map(g, t))
  {
    if multiset(s) == multiset(t) {
      var p := SameBagReorders(s, t);
      assert Map(g, s) == Reordered(Map(g, t), p);
      ReorderedKeepsBag(Map(g, t), p);
    }
    if multiset(Map(g, s)) == multiset(Map(g, t)) {
      var p := SameBagReorders(Map(g, s), Map(g, t));
      assert |multiset(Map(g, s))| == |s| && |multiset(Map(g, t))| == |t|;
      forall i | 0 <= i < |s| ensures s[i] == t[p[i]] {
        assert Map(g, s)[i] == Reordered(Map(g, t), p)[i];
      }
      assert s == Reordered(t, p);
      ReorderedKeepsBag(t, p);
    }
  }

  // ------------------------------------------------------------ what a table means

  /** A row as an assignment of keys to column names: no column order is left. */
  function Assignment(f: Folding, columns: seq<string>, row: seq<Value>): map<string, Key> {
    map c | c in columns && |row| == |columns| :: KeyOf(f, row[Place(columns, c)])
  }

  /** The columns as a set and the rows as a bag of assignments. */
  function Meaning(f: Folding, t: Table): (set<string>, multiset<map<string, Key>>) {
    var columns := Lowered(f, t.columns);
    (set c | c in columns, multiset(Map(row => Assignment(f, columns, row), t.rows)))
  }

  /** The inverse of reading an assignment in the order of `columns`. */
  function Reassembled(columns: seq<string>, keys: seq<Key>): map<string, Key> {
    map c | c in columns && |keys| == |columns| :: keys[Place(columns, c)]
  }

  lemma PlaceIsUnique(columns: seq<string>, i: nat)
    requires Distinct(columns) && i < |columns|
    ensures Place(columns, columns[i]) == i
  {
  }

  lemma ReassembledInjective(columns: seq<string>, a: seq<Key>, b: seq<Key>)
    requires Distinct(columns) && |a| == |b| == |columns|
    requires Reassembled(columns, a) == Reassembled(columns, b)
    ensures a == b
  {
    forall i | 0 <= i < |columns| ensures a[i] == b[i] {
      PlaceIsUnique(columns, i);
      assert columns[i] in Reassembled(columns, a);
      assert Reassembled(columns, a)[columns[i]] == a[i];
      assert Reassembled(columns, b)[columns[i]] == b[i];
    }
  }

  ghost predicate SameNames(a: seq<string>, b: seq<string>) { forall c :: c in a <==> c in b }

  lemma ColumnsAgree(a: seq<string>, b: seq<string>)
    ensures Absent(a, b) == [] && Absent(b, a) == [] <==> SameNames(a, b)
    ensures SameNames(a, b) <==> (set c | c in a) == (set c | c in b)
  {
    var left, right := set c | c in a, set c | c in b;
    assert forall c :: c in a <==> c in left;
    assert forall c :: c in b <==> c in right;
    if left == right { assert SameNames(a, b); }
    if SameNames(a, b) { assert left == right; }
  }

  lemma RectangularIsReadable(t: Table, columns: seq<string>, wanted: seq<string>)
    requires Rectangular(t) && |columns| == |t.columns|
    ensures Readable(columns, wanted, t.rows)
  {
  }

  lemma ProjectionRebuilds(f: Folding, wanted: seq<string>, offered: seq<string>, row: seq<Value>)
    requires Distinct(wanted) && SameNames(wanted, offered) && |row| == |offered|
    ensures Reassembled(wanted, Project(f, offered, wanted, row)) == Assignment(f, offered, row)
  {
    forall c | c in wanted
      ensures Project(f, offered, wanted, row)[Place(wanted, c)] == KeyOf(f, row[Place(offered, c)])
    {
    }
  }

  lemma KeysRebuild(f: Folding, columns: seq<string>, row: seq<Value>)
    requires |row| == |columns|
    ensures Reassembled(columns, KeysOf(f, row)) == Assignment(f, columns, row)
  {
  }

  lemma SideRebuilds(f: Folding, wanted: seq<string>, offered: seq<string>, rows: seq<seq<Value>>)
    requires Distinct(wanted) && SameNames(wanted, offered) && forall row :: row in rows ==> |row| == |offered|
    ensures Map(keys => Reassembled(wanted, keys), Map(row => Project(f, offered, wanted, row), rows))
        == Map(row => Assignment(f, offered, row), rows)
    ensures wanted == offered ==>
      Map(keys => Reassembled(wanted, keys), Map(row => KeysOf(f, row), rows))
      == Map(row => Assignment(f, offered, row), rows)
  {
    hide SameNames, Distinct, Project, KeysOf, Reassembled, Assignment;
    forall i | 0 <= i < |rows|
      ensures Reassembled(wanted, Project(f, offered, wanted, rows[i])) == Assignment(f, offered, rows[i])
      ensures wanted == offered ==> Reassembled(wanted, KeysOf(f, rows[i])) == Assignment(f, offered, rows[i])
    {
      assert rows[i] in rows;
      ProjectionRebuilds(f, wanted, offered, rows[i]);
      if wanted == offered { KeysRebuild(f, wanted, rows[i]); }
    }
  }

  /** The comparison accepts exactly the pairs of equal meaning, whenever the reference
      names no column twice. */
  lemma AcceptsEqualMeaning(f: Folding, reference: Table, generated: Table)
    requires Rectangular(reference) && Rectangular(generated)
    requires Distinct(Lowered(f, reference.columns))
    ensures Compare(f, reference, generated).Same? <==> Meaning(f, reference) == Meaning(f, generated)
  {
    hide SameNames, Distinct, Project, KeysOf, Reassembled, Assignment, Absent, Map, Readable;
    var wanted, offered := Lowered(f, reference.columns), Lowered(f, generated.columns);
    ColumnsAgree(wanted, offered);
    RectangularIsReadable(generated, offered, wanted);
    if SameNames(wanted, offered) {
      var left, right := Map(row => KeysOf(f, row), reference.rows),
          Map(row => Project(f, offered, wanted, row), generated.rows);
      var build := keys => Reassembled(wanted, keys);
      forall x, y | x in left && y in right && build(x) == build(y) ensures x == y {
        ReassembledInjective(wanted, x, y);
      }
      SameBagSameImage(build, left, right);
      ColumnsAgree(wanted, wanted);
      SideRebuilds(f, wanted, wanted, reference.rows);
      SideRebuilds(f, wanted, offered, generated.rows);
    }
  }

  /** Rectangular, and no column named twice up to case. */
  predicate Named(f: Folding, t: Table) { Rectangular(t) && Distinct(Lowered(f, t.columns)) }

  /** An equivalence on tables without repeated column names. */
  lemma ComparisonIsAnEquivalence(f: Folding, a: Table, b: Table, c: Table)
    requires Named(f, a) && Named(f, b) && Named(f, c)
    ensures Compare(f, a, a).Same?
    ensures Compare(f, a, b).Same? <==> Compare(f, b, a).Same?
    ensures Compare(f, a, b).Same? && Compare(f, b, c).Same? ==> Compare(f, a, c).Same?
  {
    AcceptsEqualMeaning(f, a, a);
    AcceptsEqualMeaning(f, a, b);
    AcceptsEqualMeaning(f, b, a);
    AcceptsEqualMeaning(f, b, c);
    AcceptsEqualMeaning(f, a, c);
  }

  /** A row on which a repeated name shows. */
  lemma RepeatedNameRefusesItself(f: Folding, columns: seq<string>, i: nat, j: nat)
    requires f.round(0.0) != f.round(2.0)
    requires i < j < |columns| && f.lower(columns[i]) == f.lower(columns[j])
    ensures var t := Table(columns, [seq(|columns|, k => if k == j then Number(2.0) else Number(0.0))]);
            Rectangular(t) && !Compare(f, t, t).Same?
  {
    hide Map, Absent;
    var names := Lowered(f, columns);
    var row := seq(|names|, k => if k == j then Number(2.0) else Number(0.0));
    var read, keys := Project(f, names, names, row), KeysOf(f, row);
    assert names[i] == names[j] && Place(names, names[j]) < j;
    assert read[j] != keys[j];
    assert Map(r => KeysOf(f, r), [row]) == [keys] && Map(r => Project(f, names, names, r), [row]) == [read];
    assert keys in multiset([keys]) && keys !in multiset([read]);
  }

  /** Distinct names are what reflexivity costs: a column list agrees with itself on every
      list of rows exactly when no lower-cased name repeats. */
  lemma ReflexiveExactlyWhenDistinct(f: Folding, columns: seq<string>)
    requires f.round(0.0) != f.round(2.0)
    ensures Distinct(Lowered(f, columns))
       <==> forall rows ::
              Rectangular(Table(columns, rows)) ==> Compare(f, Table(columns, rows), Table(columns, rows)).Same?
  {
    hide Compare, Rectangular;
    var names := Lowered(f, columns);
    if Distinct(names) {
      forall rows | Rectangular(Table(columns, rows))
          ensures Compare(f, Table(columns, rows), Table(columns, rows)).Same? {
        AcceptsEqualMeaning(f, Table(columns, rows), Table(columns, rows));
      }
    } else {
      var i, j :| 0 <= i < j < |names| && names[i] == names[j];
      RepeatedNameRefusesItself(f, columns, i, j);
    }
  }

  /** A one-to-one matching of the rows: matched rows agree under the key at every column,
      looked up by name. */
  predicate Matching(f: Folding, reference: Table, generated: Table, p: seq<nat>) {
    var wanted, offered := Lowered(f, reference.columns), Lowered(f, generated.columns);
    && |reference.rows| == |generated.rows| && Permutes(p, |generated.rows|)
    && forall i :: 0 <= i < |p| ==> KeysOf(f, reference.rows[i]) == Project(f, offered, wanted, generated.rows[p[i]])
  }

  /** Accepting means that the rows can be matched one to one, and that none is too short
      to be read; repeated names and ragged rows included. */
  lemma AcceptsExactlyWhenMatched(f: Folding, reference: Table, generated: Table)
    ensures Compare(f, reference, generated).Same?
       <==> && SameNames(Lowered(f, reference.columns), Lowered(f, generated.columns))
            && Readable(Lowered(f, generated.columns), Lowered(f, reference.columns), generated.rows)
            && exists p :: Matching(f, reference, generated, p)
  {
    var wanted, offered := Lowered(f, reference.columns), Lowered(f, generated.columns);
    hide Readable;
    ColumnsAgree(wanted, offered);
    var s := Map(row => KeysOf(f, row), reference.rows);
    var t := Map(row => Project(f, offered, wanted, row), generated.rows);
    if multiset(s) == multiset(t) {
      var p := SameBagReorders(s, t);
      assert |multiset(s)| == |s| && |multiset(t)| == |t|;
      forall i | 0 <= i < |p| ensures s[i] == t[p[i]] { assert s[i] == Reordered(t, p)[i]; }
      assert Matching(f, reference, generated, p);
    }
    if p :| Matching(f, reference, generated, p) {
      ReorderedKeepsBag(t, p);
      assert Reordered(t, p) == s;
    }
  }

  function WithRowsReordered(t: Table, p: seq<nat>): Table
    requires Permutes(p, |t.rows|)
  {
    Table(t.columns, Reordered(t.rows, p))
  }

  function WithColumnsReordered(t: Table, p: seq<nat>): Table
    requires Permutes(p, |t.columns|) && Rectangular(t)
  {
    Table(Reordered(t.columns, p),
          seq(|t.rows|, i requires 0 <= i < |t.rows| => (assert t.rows[i] in t.rows; Reordered(t.rows[i], p))))
  }

  lemma RowOrderHasNoMeaning(f: Folding, t: Table, p: seq<nat>)
    requires Permutes(p, |t.rows|)
    ensures Meaning(f, WithRowsReordered(t, p)) == Meaning(f, t)
  {
    var read := row => Assignment(f, Lowered(f, t.columns), row);
    assert Map(read, Reordered(t.rows, p)) == Reordered(Map(read, t.rows), p);
    ReorderedKeepsBag(Map(read, t.rows), p);
  }

  lemma ReorderedStaysDistinct(names: seq<string>, p: seq<nat>)
    requires Permutes(p, |names|) && Distinct(names)
    ensures Distinct(Reordered(names, p))
    ensures forall c :: c in Reordered(names, p) <==> c in names
  {
    var moved := Reordered(names, p);
    ReorderedKeepsBag(names, p);
    assert forall c :: c in moved <==> c in multiset(moved);
    assert forall c :: c in names <==> c in multiset(names);
    forall i, j | 0 <= i < j < |moved| ensures moved[i] != moved[j] { assert p[i] != p[j]; }
  }

  lemma ReorderedAssignment(f: Folding, names: seq<string>, row: seq<Value>, p: seq<nat>)
    requires Permutes(p, |names|) && Distinct(names) && |row| == |names|
    ensures Assignment(f, Reordered(names, p), Reordered(row, p)) == Assignment(f, names, row)
  {
    ReorderedStaysDistinct(names, p);
    var moved := Reordered(names, p);
    forall c | c in names ensures Reordered(row, p)[Place(moved, c)] == row[Place(names, c)] {
      PlaceIsUnique(names, p[Place(moved, c)]);
    }
  }

  lemma ColumnOrderHasNoMeaning(f: Folding, t: Table, p: seq<nat>)
    requires Permutes(p, |t.columns|) && Named(f, t)
    ensures Named(f, WithColumnsReordered(t, p))
    ensures Meaning(f, WithColumnsReordered(t, p)) == Meaning(f, t)
  {
    hide Assignment, Map;
    var names, u := Lowered(f, t.columns), WithColumnsReordered(t, p);
    var moved := Lowered(f, u.columns);
    assert moved == Reordered(names, p);
    ReorderedStaysDistinct(names, p);
    assert Rectangular(u);
    assert (set c | c in moved) == (set c | c in names);
    forall i | 0 <= i < |t.rows| ensures Assignment(f, moved, u.rows[i]) == Assignment(f, names, t.rows[i]) {
      assert t.rows[i] in t.rows;
      ReorderedAssignment(f, names, t.rows[i], p);
    }
    assert Map(row => Assignment(f, moved, row), u.rows) == Map(row => Assignment(f, names, row), t.rows);
  }

  function Shuffled(t: Table, columns: seq<nat>, rows: seq<nat>): Table
    requires Permutes(columns, |t.columns|) && Permutes(rows, |t.rows|) && Rectangular(t)
  {
    WithRowsReordered(WithColumnsReordered(t, columns), rows)
  }

  lemma ShuffledMeansTheSame(f: Folding, t: Table, columns: seq<nat>, rows: seq<nat>)
    requires Permutes(columns, |t.columns|) && Permutes(rows, |t.rows|) && Named(f, t)
    ensures Named(f, Shuffled(t, columns, rows))
    ensures Meaning(f, Shuffled(t, columns, rows)) == Meaning(f, t)
  {
    hide Meaning, Lowered, Distinct;
    ColumnOrderHasNoMeaning(f, t, columns);
    RowOrderHasNoMeaning(f, WithColumnsReordered(t, columns), rows);
  }

  /** No rearrangement of rows or columns of either side changes the answer. */
  lemma OrderNeverMatters(f: Folding, a: Table, b: Table, p: seq<nat>, q: seq<nat>, r: seq<nat>, s: seq<nat>)
    requires Named(f, a) && Named(f, b)
    requires Permutes(p, |a.columns|) && Permutes(q, |a.rows|) && Permutes(r, |b.columns|) && Permutes(s, |b.rows|)
    ensures Compare(f, Shuffled(a, p, q), Shuffled(b, r, s)).Same? <==> Compare(f, a, b).Same?
  {
    hide Meaning, Lowered, Distinct, Compare;
    ShuffledMeansTheSame(f, a, p, q);
    ShuffledMeansTheSame(f, b, r, s);
    AcceptsEqualMeaning(f, a, b);
    AcceptsEqualMeaning(f, Shuffled(a, p, q), Shuffled(b, r, s));
  }
}
