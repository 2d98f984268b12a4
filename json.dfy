/**
 * `humanize_json`: a recursive walk over a JSON-like value that humanizes
 * every string value, rebuilds lists and dicts in order, returns every
 * other value unchanged, and sums the counts. Dict keys are copied as they
 * are.
 */
module JsonTraversal {
  import opened Settings
  import opened Keyboard
  import opened Humanizer

  /** The values that are neither strings nor containers: returned as they are. */
  datatype Scalar = Null | Boolean(b: bool) | Number(n: int) | Opaque(tag: string)

  /**
   * A JSON-like value; a dict is its entries in iteration order. The keys of
   * a Python dict are distinct; this type does not require it, and the
   * traversal does not rely on it, since every entry is rebuilt under its
   * own key.
   */
  datatype Json =
    | Str(s: string)
    | Arr(items: seq<Json>)
    | Obj(entries: seq<Entry>)
    | Leaf(value: Scalar)

  /** One key-value pair of a dict. */
  datatype Entry = Entry(key: string, value: Json)

  /** The cleaned value and the total count, as `humanize_json` returns them. */
  function Clean(j: Json, o: Options, tables: UnicodeTables): (r: (Json, nat))
    decreases j, 1
  {
    match j
    case Str(s) =>
      var r := Humanize(s, o, tables);
      (Str(r.text), r.count)
    case Arr(items) =>
      var (xs, n) := CleanItems(items, o, tables);
      (Arr(xs), n)
    case Obj(entries) =>
      var (ys, n) := CleanEntries(entries, o, tables);
      (Obj(ys), n)
    case Leaf(_) => (j, 0)
  }

  /** The list branch: each element cleaned in turn, counts added up. */
  function CleanItems(items: seq<Json>, o: Options, tables: UnicodeTables): (r: (seq<Json>, nat))
    decreases items, 0
  {
    if items == [] then ([], 0)
    else
      var (xs, n) := CleanItems(items[..|items| - 1], o, tables);
      var (x, m) := Clean(items[|items| - 1], o, tables);
      (xs + [x], n + m)
  }

  /** The dict branch: `cleaned[k] = cleaned_v` with `k` the original key. */
  function CleanEntries(entries: seq<Entry>, o: Options, tables: UnicodeTables): (r: (seq<Entry>, nat))
    decreases entries, 0
  {
    if entries == [] then ([], 0)
    else
      var (ys, n) := CleanEntries(entries[..|entries| - 1], o, tables);
      var entry := entries[|entries| - 1];
      var (cv, m) := Clean(entry.value, o, tables);
      (ys + [Entry(entry.key, cv)], n + m)
  }

  /**
   * `humanize_json`: strings go to `humanize_string`, lists and dicts are
   * rebuilt by a loop that appends or assigns one cleaned element at a time
   * while adding up the counts, anything else comes back with count 0.
   */
  method HumanizeJson(j: Json, options: Option<Options>, tables: UnicodeTables) returns (cleaned: Json, total: nat)
    ensures (cleaned, total) == Clean(j, Resolve(options), tables)
    decreases j
  {
    var o := Resolve(options);
    match j
    case Str(s) =>
      var result := HumanizeString(s, Some(o), tables);
      cleaned, total := Str(result.text), result.count;
    case Obj(entries) =>
      var out: seq<Entry> := [];
      total := 0;
      for i := 0 to |entries|
        invariant (out, total) == CleanEntries(entries[..i], o, tables)
      {
        assert entries[..i + 1][..i] == entries[..i];
        var entry := entries[i];
        var cv, count := HumanizeJson(entry.value, Some(o), tables);
        out := out + [Entry(entry.key, cv)];
        total := total + count;
      }
      assert entries[..|entries|] == entries;
      cleaned := Obj(out);
    case Arr(items) =>
      var out: seq<Json> := [];
      total := 0;
      for i := 0 to |items|
        invariant (out, total) == CleanItems(items[..i], o, tables)
      {
        assert items[..i + 1][..i] == items[..i];
        var item, count := HumanizeJson(items[i], Some(o), tables);
        out := out + [item];
        total := total + count;
      }
      assert items[..|items|] == items;
      cleaned := Arr(out);
    case Leaf(_) =>
      cleaned, total := j, 0;
  }

  /** A list is rebuilt with the same length and order, element by element. */
  lemma {:induction false} CleanItemsElementwise(items: seq<Json>, o: Options, tables: UnicodeTables)
    ensures var xs := CleanItems(items, o, tables).0;
      |xs| == |items| && forall i :: 0 <= i < |items| ==> xs[i] == Clean(items[i], o, tables).0
    decreases |items|
  {
    if items != [] {
      CleanItemsElementwise(items[..|items| - 1], o, tables);
    }
  }

  /**
   * A dict is rebuilt with the same keys, unchanged and in the same order,
   * each mapped to its value's cleaned form.
   */
  lemma {:induction false} CleanEntriesKeepKeys(entries: seq<Entry>, o: Options, tables: UnicodeTables)
    ensures var ys := CleanEntries(entries, o, tables).0;
      |ys| == |entries| &&
      forall i :: 0 <= i < |entries| ==>
        ys[i].key == entries[i].key && ys[i].value == Clean(entries[i].value, o, tables).0
    decreases |entries|
  {
    if entries != [] {
      CleanEntriesKeepKeys(entries[..|entries| - 1], o, tables);
    }
  }

  /** The string values of a value, in traversal order; dict keys are not among them. */
  function Leaves(j: Json): (ls: seq<string>)
    decreases j, 1
  {
    match j
    case Str(s) => [s]
    case Arr(items) => ItemLeaves(items)
    case Obj(entries) => EntryLeaves(entries)
    case Leaf(_) => []
  }

  function ItemLeaves(items: seq<Json>): (ls: seq<string>)
    decreases items, 0
  {
    if items == [] then [] else ItemLeaves(items[..|items| - 1]) + Leaves(items[|items| - 1])
  }

  function EntryLeaves(entries: seq<Entry>): (ls: seq<string>)
    decreases entries, 0
  {
    if entries == [] then [] else EntryLeaves(entries[..|entries| - 1]) + Leaves(entries[|entries| - 1].value)
  }

  /** The sum of the counts of humanizing each string on its own. */
  function SumCounts(ss: seq<string>, o: Options, tables: UnicodeTables): (total: nat)
  {
    if ss == [] then 0 else SumCounts(ss[..|ss| - 1], o, tables) + Humanize(ss[|ss| - 1], o, tables).count
  }

  /**
   * Cleaning the entries of `a + b` is cleaning those of `a` and of `b`
   * separately: the cleaned entries are concatenated and the counts added,
   * so a dict's result does not depend on how its entries are grouped.
   */
  lemma {:induction false} CleanEntriesConcat(a: seq<Entry>, b: seq<Entry>, o: Options, tables: UnicodeTables)
    ensures var ca := CleanEntries(a, o, tables);
      var cb := CleanEntries(b, o, tables);
      CleanEntries(a + b, o, tables) == (ca.0 + cb.0, ca.1 + cb.1)
    decreases |b|
  {
    var ca := CleanEntries(a, o, tables);
    if b == [] {
      assert a + b == a;
      assert ca.0 + [] == ca.0;
    } else {
      var front := b[..|b| - 1];
      var last := b[|b| - 1];
      assert (a + b)[..|a + b| - 1] == a + front;
      assert (a + b)[|a + b| - 1] == last;
      CleanEntriesConcat(a, front, o, tables);
      var cf := CleanEntries(front, o, tables);
      var cl := Clean(last.value, o, tables);
      assert ca.0 + cf.0 + [Entry(last.key, cl.0)] == ca.0 + (cf.0 + [Entry(last.key, cl.0)]);
    }
  }

  /** Each string humanized on its own. */
  function Texts(ss: seq<string>, o: Options, tables: UnicodeTables): (ts: seq<string>)
  {
    if ss == [] then [] else Texts(ss[..|ss| - 1], o, tables) + [Humanize(ss[|ss| - 1], o, tables).text]
  }

  lemma {:induction false} SumCountsConcat(a: seq<string>, b: seq<string>, o: Options, tables: UnicodeTables)
    ensures SumCounts(a + b, o, tables) == SumCounts(a, o, tables) + SumCounts(b, o, tables)
    ensures Texts(a + b, o, tables) == Texts(a, o, tables) + Texts(b, o, tables)
    decreases |b|
  {
    if b == [] {
      assert a + b == a;
    } else {
      assert (a + b)[..|a + b| - 1] == a + b[..|b| - 1];
      SumCountsConcat(a, b[..|b| - 1], o, tables);
    }
  }

  /**
   * The total count is the sum of the counts of the string values taken one
   * by one (keys add nothing), and the string values of the result are those
   * strings humanized, in the same order.
   */
  lemma {:induction false} CleanSumsLeaves(j: Json, o: Options, tables: UnicodeTables)
    ensures Clean(j, o, tables).1 == SumCounts(Leaves(j), o, tables)
    ensures Leaves(Clean(j, o, tables).0) == Texts(Leaves(j), o, tables)
    decreases j, 1
  {
    match j
    case Str(s) =>
      assert [s][..0] == [];
    case Arr(items) =>
      ItemsSumLeaves(items, o, tables);
    case Obj(entries) =>
      EntriesSumLeaves(entries, o, tables);
    case Leaf(_) =>
  }

  lemma {:induction false} ItemsSumLeaves(items: seq<Json>, o: Options, tables: UnicodeTables)
    ensures CleanItems(items, o, tables).1 == SumCounts(ItemLeaves(items), o, tables)
    ensures ItemLeaves(CleanItems(items, o, tables).0) == Texts(ItemLeaves(items), o, tables)
    decreases items, 0
  {
    if items != [] {
      var init, last := items[..|items| - 1], items[|items| - 1];
      ItemsSumLeaves(init, o, tables);
      CleanSumsLeaves(last, o, tables);
      SumCountsConcat(ItemLeaves(init), Leaves(last), o, tables);
      var xs := CleanItems(items, o, tables).0;
      assert xs[..|xs| - 1] == CleanItems(init, o, tables).0;
    }
  }

  lemma {:induction false} EntriesSumLeaves(entries: seq<Entry>, o: Options, tables: UnicodeTables)
    ensures CleanEntries(entries, o, tables).1 == SumCounts(EntryLeaves(entries), o, tables)
    ensures EntryLeaves(CleanEntries(entries, o, tables).0) == Texts(EntryLeaves(entries), o, tables)
    decreases entries, 0
  {
    if entries != [] {
      var init, last := entries[..|entries| - 1], entries[|entries| - 1];
      EntriesSumLeaves(init, o, tables);
      CleanSumsLeaves(last.value, o, tables);
      SumCountsConcat(EntryLeaves(init), Leaves(last.value), o, tables);
      var ys := CleanEntries(entries, o, tables).0;
      assert ys[..|ys| - 1] == CleanEntries(init, o, tables).0;
    }
  }

  /** A value without string values (only numbers, booleans, None and containers of them) comes back unchanged with count 0. */
  lemma {:induction false} NoStringsNoChange(j: Json, o: Options, tables: UnicodeTables)
    requires Leaves(j) == []
    ensures Clean(j, o, tables) == (j, 0)
    decreases j, 1
  {
    match j
    case Str(s) =>
    case Arr(items) =>
      ItemsNoStringsNoChange(items, o, tables);
    case Obj(entries) =>
      EntriesNoStringsNoChange(entries, o, tables);
    case Leaf(_) =>
  }

  lemma {:induction false} ItemsNoStringsNoChange(items: seq<Json>, o: Options, tables: UnicodeTables)
    requires ItemLeaves(items) == []
    ensures CleanItems(items, o, tables) == (items, 0)
    decreases items, 0
  {
    if items != [] {
      var init, last := items[..|items| - 1], items[|items| - 1];
      ItemsNoStringsNoChange(init, o, tables);
      NoStringsNoChange(last, o, tables);
      assert init + [last] == items;
    }
  }

  lemma {:induction false} EntriesNoStringsNoChange(entries: seq<Entry>, o: Options, tables: UnicodeTables)
    requires EntryLeaves(entries) == []
    ensures CleanEntries(entries, o, tables) == (entries, 0)
    decreases entries, 0
  {
    if entries != [] {
      var init, last := entries[..|entries| - 1], entries[|entries| - 1];
      EntriesNoStringsNoChange(init, o, tables);
      NoStringsNoChange(last.value, o, tables);
      assert init + [last] == entries;
    }
  }

  /** With `transform_hidden` on, no string value of the result holds an `IGNORABLE_SYMBOLS` character. */
  lemma NoHiddenLeaves(j: Json, o: Options, tables: UnicodeTables)
    requires o.transformHidden
    ensures forall s :: s in Leaves(Clean(j, o, tables).0) ==> NoIgnorable(s)
  {
    CleanSumsLeaves(j, o, tables);
    TextsHaveNoHidden(Leaves(j), o, tables);
  }

  lemma {:induction false} TextsHaveNoHidden(ss: seq<string>, o: Options, tables: UnicodeTables)
    requires o.transformHidden
    ensures forall s :: s in Texts(ss, o, tables) ==> NoIgnorable(s)
    decreases |ss|
  {
    if ss != [] {
      TextsHaveNoHidden(ss[..|ss| - 1], o, tables);
      HiddenCharactersGone(ss[|ss| - 1], o, tables);
    }
  }
}
