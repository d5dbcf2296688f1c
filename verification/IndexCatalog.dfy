/** The attached catalog: which index names it lists, and which table a name finds. */
module IndexCatalog {
  import opened Common
  import opened FirstOccurrence
  import opened JsonValues
  import opened Text

  datatype AttachError =
    | NotAVarcharList
    | NullOrNonVarcharName
    | EmptyName
    | InvalidJson
    | NoEntryArray

  datatype Names = Names(names: seq<string>) | Refused(error: AttachError)

  function Itself(name: string): string { name }

  /** The order-preserving, duplicate-free list of first occurrences. */
  function Distinct(names: seq<string>): seq<string> {
    Dedup(Itself, names)
  }

  /** The growing pair of the parsers: the kept names, and the set of names seen. */
  ghost predicate Collected(offered: seq<string>, result: seq<string>, seen: set<string>) {
    result == Distinct(offered) && forall n :: n in seen <==> HasKey(Itself, offered, n)
  }

  /** Keeps `name` if the set of seen names did not hold it. */
  method Collect(result: seq<string>, seen: set<string>, name: string, ghost offered: seq<string>)
    returns (kept: seq<string>, known: set<string>)
    requires Collected(offered, result, seen)
    ensures Collected(offered + [name], kept, known)
  {
    DedupStep(Itself, offered, name);
    forall n: string ensures HasKey(Itself, offered + [name], n) <==> n in seen + {name} {
      HasKeyOfExtension(Itself, offered, name, n);
    }
    kept, known := result, seen;
    if name !in seen {
      kept, known := result + [name], seen + {name};
    }
  }

  //------------------------------------------------------------------ the INDEXES option

  /** A DuckDB value as the option parser sees it. */
  datatype AttachValue = NullValue | Varchar(text: string) | ListValue(varcharChildren: bool, children: seq<AttachValue>) | OtherValue

  predicate GoodName(child: AttachValue) {
    child.Varchar? && child.text != ""
  }

  function Texts(children: seq<AttachValue>): (texts: seq<string>)
    ensures |texts| == |children|
  {
    seq(|children|, i requires 0 <= i < |children| => if children[i].Varchar? then children[i].text else "")
  }

  /** What is wrong with the first element that is not a good name. */
  function FirstOffence(children: seq<AttachValue>): Option<AttachError> {
    if children == [] then None
    else if !children[0].Varchar? then Some(NullOrNonVarcharName)
    else if children[0].text == "" then Some(EmptyName)
    else FirstOffence(children[1..])
  }

  /** Element `i` is the first that is not a good name, and `e` says what is wrong with it. */
  predicate FirstOffender(children: seq<AttachValue>, i: nat, e: AttachError) {
    && i < |children| && (forall j :: 0 <= j < i ==> GoodName(children[j]))
    && match e
       case EmptyName => children[i] == Varchar("")
       case NullOrNonVarcharName => !children[i].Varchar?
       case _ => false
  }

  lemma {:induction false} OffenceExactly(children: seq<AttachValue>)
    ensures FirstOffence(children).None? <==> forall i :: 0 <= i < |children| ==> GoodName(children[i])
    ensures FirstOffence(children).Some? ==> exists i: nat :: FirstOffender(children, i, FirstOffence(children).value)
  {
    if children == [] {
    } else if !GoodName(children[0]) {
      assert FirstOffender(children, 0, FirstOffence(children).value);
    } else {
      var rest := children[1..];
      OffenceExactly(rest);
      assert forall i :: 0 < i < |children| ==> children[i] == rest[i - 1];
      if FirstOffence(rest).Some? {
        var i: nat :| FirstOffender(rest, i, FirstOffence(rest).value);
        assert FirstOffender(children, i + 1, FirstOffence(rest).value);
      } else {
        forall i | 0 <= i < |children| ensures GoodName(children[i]) {
          if i > 0 { assert GoodName(rest[i - 1]); }
        }
      }
    }
  }

  /** Accepts exactly the VARCHAR lists of non-empty names; otherwise reports the first offender. */
  method ParseExplicitIndexes(value: AttachValue) returns (r: Names)
    ensures r == if !(value.ListValue? && value.varcharChildren) then Refused(NotAVarcharList)
                 else match FirstOffence(value.children)
                      case Some(e) => Refused(e)
                      case None => Names(Distinct(Texts(value.children)))
  {
    if !(value.ListValue? && value.varcharChildren) {
      return Refused(NotAVarcharList);
    }
    var children := value.children;
    var result: seq<string>, seen: set<string> := [], {};
    var idx := 0;
    assert children[0..] == children;
    while idx < |children|
      invariant 0 <= idx <= |children|
      invariant FirstOffence(children) == FirstOffence(children[idx..])
      invariant Collected(Texts(children[..idx]), result, seen)
    {
      var child := children[idx];
      assert children[idx..][1..] == children[idx + 1..];
      if !child.Varchar? { return Refused(NullOrNonVarcharName); }
      var name := child.text;
      if name == "" { return Refused(EmptyName); }
      result, seen := Collect(result, seen, name, Texts(children[..idx]));
      assert Texts(children[..idx + 1]) == Texts(children[..idx]) + [name];
      idx := idx + 1;
    }
    assert children[..|children|] == children;
    r := Names(result);
  }

  //------------------------------------------------------------------ index discovery

  /** The name an entry contributes, if any. */
  function EntryName(entry: Json): seq<string> {
    match Get(entry, "name")
    case Some(JString(s)) => if CStr(s) != "" then [CStr(s)] else []
    case _ => []
  }

  function EntryNames(entries: seq<Json>): seq<string> {
    if entries == [] then [] else EntryNames(entries[..|entries| - 1]) + EntryName(entries[|entries| - 1])
  }

  /** An entry contributes its first `name` member when that is a non-empty string, and nothing otherwise. */
  lemma EntryNamesExactly(front: seq<Json>, last: Json)
    ensures EntryNames([]) == []
    ensures forall t :: FirstMember(last, "name", JString(t)) ==>
              EntryNames(front + [last]) == EntryNames(front) + if CStr(t) == "" then [] else [CStr(t)]
    ensures (forall t :: !FirstMember(last, "name", JString(t))) ==> EntryNames(front + [last]) == EntryNames(front)
  {
    assert (front + [last])[..|front|] == front;
    assert EntryNames(front) + [] == EntryNames(front);
    forall t ensures FirstMember(last, "name", JString(t)) <==> Get(last, "name") == Some(JString(t)) {
      GetExactly(last, "name", JString(t));
    }
  }

  /** Skips unusable entries; fails only on invalid JSON or a missing entry array. */
  method ParseDiscoveredIndexes(lib: Library, response: string) returns (r: Names)
    ensures r == match lib.parse(response)
                 case None => Refused(InvalidJson)
                 case Some(root) =>
                   match Get(root, "entry")
                   case Some(JArray(entries)) => Names(Distinct(EntryNames(entries)))
                   case _ => Refused(NoEntryArray)
  {
    var doc := lib.parse(response);
    if doc.None? { return Refused(InvalidJson); }
    var found := Get(doc.value, "entry");
    if found.None? || !found.value.JArray? { return Refused(NoEntryArray); }
    var entries := found.value.items;
    var result: seq<string>, seen: set<string> := [], {};
    var idx := 0;
    assert entries[..0] == [];
    while idx < |entries|
      invariant 0 <= idx <= |entries|
      invariant Collected(EntryNames(entries[..idx]), result, seen)
    {
      assert entries[..idx + 1][..idx] == entries[..idx];
      ghost var offered := EntryNames(entries[..idx]);
      var entry := entries[idx];
      idx := idx + 1;
      assert offered + [] == offered;
      if !entry.JObject? { continue; }
      var nameValue := Get(entry, "name");
      if nameValue.None? || !nameValue.value.JString? { continue; }
      var name := CStr(nameValue.value.s);
      if name != "" {
        result, seen := Collect(result, seen, name, offered);
      }
    }
    assert entries[..|entries|] == entries;
    r := Names(result);
  }

  /** Both parsers' lists: every offered name once, in the order of first appearance. */
  lemma DistinctNames(names: seq<string>)
    ensures forall i, j :: 0 <= i < j < |Distinct(names)| ==> Distinct(names)[i] != Distinct(names)[j]
    ensures forall n :: n in Distinct(names) <==> n in names
    ensures SameKeysOnce(Itself, names, Distinct(names))
    ensures FirstsInOrder(Itself, names, Distinct(names))
  {
    DedupOrder(Itself, names);
    var d := Distinct(names);
    assert forall i :: 0 <= i < |d| ==> Itself(d[i]) == d[i];
    forall n ensures n in d <==> n in names {
      if n in names {
        var i :| 0 <= i < |names| && names[i] == n;
        assert HasKey(Itself, d, Itself(names[i]));
      }
      if n in d {
        var i :| 0 <= i < |d| && d[i] == n;
        assert HasKey(Itself, names, Itself(d[i]));
      }
    }
  }

  //------------------------------------------------------------------ the schema

  datatype TableEntry = TableEntry(name: string, indexName: string)

  datatype CatalogType = TableType | OtherType

  class SplunkSchemaEntry {
    var tables: seq<TableEntry>

    constructor (indexes: seq<string>)
      ensures tables == TablesOf(indexes)
    {
      tables := [];
      new;
      for i := 0 to |indexes|
        invariant tables == TablesOf(indexes[..i])
      {
        tables := tables + [TableEntry(indexes[i], indexes[i])];
      }
      assert indexes[..|indexes|] == indexes;
    }

    /** An exact match if there is one, else the first case-insensitive match, else nothing. */
    method LookupEntry(kind: CatalogType, name: string) returns (entry: Option<TableEntry>)
      ensures kind.OtherType? ==> entry.None?
      ensures kind.TableType? ==> entry == Lookup(tables, name)
    {
      if kind.OtherType? { return None; }
      for i := 0 to |tables|
        invariant forall k :: 0 <= k < i ==> tables[k].name != name
      {
        if tables[i].name == name {
          FirstExact(tables, name, i);
          return Some(tables[i]);
        }
      }
      NoExact(tables, name);
      for i := 0 to |tables|
        invariant forall k :: 0 <= k < i ==> !CIEquals(tables[k].name, name)
      {
        if CIEquals(tables[i].name, name) {
          FirstFolded(tables, name, i);
          return Some(tables[i]);
        }
      }
      NoFolded(tables, name);
      entry := None;
    }
  }

  function FindExact(tables: seq<TableEntry>, name: string): Option<TableEntry> {
    if tables == [] then None
    else if tables[0].name == name then Some(tables[0])
    else FindExact(tables[1..], name)
  }

  function FindFolded(tables: seq<TableEntry>, name: string): Option<TableEntry> {
    if tables == [] then None
    else if CIEquals(tables[0].name, name) then Some(tables[0])
    else FindFolded(tables[1..], name)
  }

  function Lookup(tables: seq<TableEntry>, name: string): Option<TableEntry> {
    if FindExact(tables, name).Some? then FindExact(tables, name) else FindFolded(tables, name)
  }

  lemma {:induction false} FirstExact(tables: seq<TableEntry>, name: string, i: nat)
    requires i < |tables| && tables[i].name == name
    requires forall k :: 0 <= k < i ==> tables[k].name != name
    ensures FindExact(tables, name) == Some(tables[i])
  {
    if i > 0 { FirstExact(tables[1..], name, i - 1); }
  }

  lemma {:induction false} NoExact(tables: seq<TableEntry>, name: string)
    requires forall k :: 0 <= k < |tables| ==> tables[k].name != name
    ensures FindExact(tables, name) == None
  {
    if tables == [] {
    } else {
      NoExact(tables[1..], name);
    }
  }

  lemma {:induction false} FirstFolded(tables: seq<TableEntry>, name: string, i: nat)
    requires i < |tables| && CIEquals(tables[i].name, name)
    requires forall k :: 0 <= k < i ==> !CIEquals(tables[k].name, name)
    ensures FindFolded(tables, name) == Some(tables[i])
  {
    if i > 0 { FirstFolded(tables[1..], name, i - 1); }
  }

  lemma {:induction false} NoFolded(tables: seq<TableEntry>, name: string)
    requires forall k :: 0 <= k < |tables| ==> !CIEquals(tables[k].name, name)
    ensures FindFolded(tables, name) == None
  {
    if tables == [] {
    } else {
      NoFolded(tables[1..], name);
    }
  }

  function TablesOf(names: seq<string>): (tables: seq<TableEntry>)
    ensures |tables| == |names|
  {
    seq(|names|, i requires 0 <= i < |names| => TableEntry(names[i], names[i]))
  }

  /** Some listed name equals `name` up to case. */
  predicate Matches(names: seq<string>, name: string) {
    exists i :: 0 <= i < |names| && CIEquals(names[i], name)
  }

  lemma ExactNameFindsItself(names: seq<string>, name: string)
    requires name in names
    ensures Lookup(TablesOf(names), name) == Some(TableEntry(name, name))
  {
    var tables := TablesOf(names);
    var at := FirstEqual(names, name);
    FirstExact(tables, name, at);
  }

  lemma OtherNameFindsFirstMatch(names: seq<string>, name: string) returns (at: nat)
    requires name !in names
    ensures Lookup(TablesOf(names), name).Some? <==> Matches(names, name)
    ensures Matches(names, name) ==>
              && at < |names| && CIEquals(names[at], name) && (forall j :: 0 <= j < at ==> !CIEquals(names[j], name))
              && Lookup(TablesOf(names), name) == Some(TableEntry(names[at], names[at]))
  {
    var tables := TablesOf(names);
    NoExact(tables, name);
    at := 0;
    if Matches(names, name) {
      at := FirstMatch(names, name);
      FirstFolded(tables, name, at);
    } else {
      NoFolded(tables, name);
    }
  }

  /**
   * Every offered name finds its own table, even among names that differ in case only; any other name
   * finds the first listed one equal to it up to case; and nothing is found exactly when none is.
   */
  lemma CatalogReachability(offered: seq<string>, name: string)
    ensures var names, tables := Distinct(offered), TablesOf(Distinct(offered));
            && (name in offered ==> Lookup(tables, name) == Some(TableEntry(name, name)))
            && (Lookup(tables, name).Some? <==> Matches(offered, name))
            && (name !in offered && Matches(offered, name) ==>
                  exists i :: 0 <= i < |names| && Lookup(tables, name) == Some(TableEntry(names[i], names[i]))
                              && CIEquals(names[i], name) && forall j :: 0 <= j < i ==> !CIEquals(names[j], name))
  {
    var names := Distinct(offered);
    DistinctNames(offered);
    SameMatches(names, offered, name);
    SameMatches(offered, names, name);
    if name in offered {
      ExactNameFindsItself(names, name);
      var i :| 0 <= i < |offered| && offered[i] == name;
      assert CIEquals(offered[i], name);
    } else {
      var at := OtherNameFindsFirstMatch(names, name);
    }
  }

  lemma SameMatches(a: seq<string>, b: seq<string>, name: string)
    requires forall n :: n in a ==> n in b
    ensures Matches(a, name) ==> Matches(b, name)
  {
    if Matches(a, name) {
      var i :| 0 <= i < |a| && CIEquals(a[i], name);
      assert a[i] in b;
      var j :| 0 <= j < |b| && b[j] == a[i];
      assert CIEquals(b[j], name);
    }
  }

  lemma FirstEqual(names: seq<string>, name: string) returns (at: nat)
    requires name in names
    ensures at < |names| && names[at] == name && forall j :: 0 <= j < at ==> names[j] != name
  {
    at := 0;
    while names[at] != name
      invariant at < |names| && forall j :: 0 <= j < at ==> names[j] != name
      decreases |names| - at
    {
      at := at + 1;
    }
  }

  lemma FirstMatch(names: seq<string>, name: string) returns (at: nat)
    requires Matches(names, name)
    ensures at < |names| && CIEquals(names[at], name)
    ensures forall j :: 0 <= j < at ==> !CIEquals(names[j], name)
  {
    at := 0;
    while !CIEquals(names[at], name)
      invariant at < |names| && forall j :: 0 <= j < at ==> !CIEquals(names[j], name)
      decreases |names| - at
    {
      at := at + 1;
    }
  }
}
