/** graphql.graphql.NestedCompositionUpdateBuilder: for every composition sheet hanging directly
    off a main sheet (a root), one update mutation per root row that creates the root's row
    data, with the rows of the compositions below it nested under the column holding their
    parent's value. Composition sheets are those whose name starts with '#'; each one's parent
    class is read from its first header. */
module NestedBuilder {
  import opened Wrappers
  import opened Strings
  import opened Sequences
  import opened OrderedMaps
  import opened Constants
  import opened ExternalAttributes
  import opened ResolverParser
  import opened ExcelReaderOut
  import MutationBuilder

  /** The objects formatGraphQLMap renders: a String, a Map, a List, or null. */
  datatype Node = Text(text: string) | Fields(entries: OMap<string, Node>) | Items(items: seq<Node>) | Null

  /** Each part followed by the separator: the StringBuilder loops of formatGraphQLMap and
      joinMutations, before any trailing separator is cut. */
  function Suffixed(parts: seq<string>, sep: string): string {
    if parts == [] then [] else parts[0] + sep + Suffixed(parts[1..], sep)
  }

  lemma {:induction false} SuffixedAppend(parts: seq<string>, x: string, sep: string)
    ensures Suffixed(parts + [x], sep) == Suffixed(parts, sep) + x + sep
  {
    if parts == [] {
      assert parts + [x] == [x];
    } else {
      assert (parts + [x])[1..] == parts[1..] + [x];
      SuffixedAppend(parts[1..], x, sep);
    }
  }

  /** Every part followed by the separator is the parts joined by it, then one more separator. */
  lemma {:induction false} SuffixedJoin(parts: seq<string>, sep: string)
    requires parts != []
    ensures Suffixed(parts, sep) == Join(parts, sep) + sep
  {
    if |parts| > 1 {
      SuffixedJoin(parts[1..], sep);
    }
  }

  /** The StringBuilder after `if (sb.length() > 2) sb.setLength(sb.length() - 2)`. */
  function CutLast2(sb: string): string {
    if |sb| > 2 then sb[..|sb| - 2] else sb
  }

  /** The rendered entries of a map, "key: value" each. */
  function EntryParts(n: Node): seq<string>
    requires n.Fields?
    decreases n, 0
  {
    seq(|n.entries|, i requires 0 <= i < |n.entries| =>
      assert n.entries[i] in n.entries;
      n.entries[i].0 + ": " + Format(n.entries[i].1))
  }

  /** The rendered items of a list. */
  function ItemParts(n: Node): seq<string>
    requires n.Items?
    decreases n, 0
  {
    seq(|n.items|, i requires 0 <= i < |n.items| =>
      assert n.items[i] in n.items;
      Format(n.items[i]))
  }

  /** formatGraphQLMap, as written: each entry or item followed by ", ", the last two characters
      cut when anything was appended after the opening "{ " or "[ ". */
  function Format(n: Node): string
    decreases n, 1
  {
    match n
    case Fields(_) => CutLast2("{ " + Suffixed(EntryParts(n), ", ")) + " }"
    case Items(_) => CutLast2("[ " + Suffixed(ItemParts(n), ", ")) + " ]"
    case Text(t) => "\"" + t + "\""
    case Null => "null"
  }

  /** A map renders as its "key: value" entries joined by ", " inside "{ " and " }", so an
      empty map renders as "{  }"; a list likewise inside "[ " and " ]". */
  lemma FormatJoins(n: Node)
    ensures n.Fields? ==> Format(n) == "{ " + Join(EntryParts(n), ", ") + " }"
    ensures n.Items? ==> Format(n) == "[ " + Join(ItemParts(n), ", ") + " ]"
    ensures n == Fields([]) ==> Format(n) == "{  }"
    ensures n == Items([]) ==> Format(n) == "[  ]"
  {
    if n.Fields? || n.Items? {
      var parts := if n.Fields? then EntryParts(n) else ItemParts(n);
      var open := if n.Fields? then "{ " else "[ ";
      if parts != [] {
        SuffixedJoin(parts, ", ");
        var sb := open + Join(parts, ", ") + ", ";
        assert open + Suffixed(parts, ", ") == sb;
        assert CutLast2(sb) == open + Join(parts, ", ");
      }
    }
  }

  /** A string renders quoted and unescaped; anything else (null) through String.valueOf. */
  lemma FormatScalars(t: string)
    ensures Format(Text(t)) == ['"'] + t + ['"']
    ensures Format(Null) == "null"
    ensures Format(Fields([("k", Text(t))])) == "{ k: \"" + t + "\" }"
  {
    FormatJoins(Fields([("k", Text(t))]));
  }

  /** joinMutations: every mutation followed by a line break. */
  function Lines(ms: seq<string>): string {
    Suffixed(ms, "\n")
  }

  /** Splitting the joined text at line breaks gives the mutations back, then the empty text
      after the last break, when no mutation holds a line break. */
  lemma {:induction false} LinesSplit(ms: seq<string>)
    requires forall k :: 0 <= k < |ms| ==> '\n' !in ms[k]
    ensures SplitAll(Lines(ms), '\n') == ms + [[]]
  {
    if ms == [] {
    } else {
      LinesSplit(ms[1..]);
      SplitAllField(ms[0], '\n', Lines(ms[1..]));
      assert ms == [ms[0]] + ms[1..];
    }
  }

  /** isCompositionSheet: the name starts with '#'. */
  predicate IsCompositionName(name: string) {
    StartsWith(name, [CompositionPrefix])
  }

  /** The name without its first character (substring(1)); every name it is applied to starts
      with '#'. */
  function Role(name: string): string {
    if name == [] then [] else name[1..]
  }

  /** findCompositionsForParent: the composition names whose recorded parent is parent, in the
      map's order. */
  function CompositionsFor(parents: OMap<string, string>, parent: string): seq<string> {
    if parents == [] then []
    else (if parents[0].1 == parent then [parents[0].0] else []) + CompositionsFor(parents[1..], parent)
  }

  /** The compositions found are exactly the keys the parent's entries carry. */
  lemma {:induction false} CompositionsForMembers(parents: OMap<string, string>, parent: string)
    ensures forall c :: c in CompositionsFor(parents, parent) <==> exists i :: 0 <= i < |parents| && parents[i] == (c, parent)
    decreases |parents|
  {
    if parents != [] {
      CompositionsForMembers(parents[1..], parent);
      assert forall i :: 0 < i < |parents| ==> parents[i] == parents[1..][i - 1];
    }
  }

  lemma CompositionsForStep(parents: OMap<string, string>, parent: string, k: nat)
    requires k < |parents|
    ensures CompositionsFor(parents[k..], parent) ==
              (if parents[k].1 == parent then [parents[k].0] else []) + CompositionsFor(parents[k + 1..], parent)
  {
    assert parents[k..][0] == parents[k] && parents[k..][1..] == parents[k + 1..];
  }

  /** The two fields the constructor fills. */
  datatype Registry = Registry(sheets: OMap<string, ExcelSheetData>, parents: OMap<string, string>)

  /** The constructor's loop from a given registry: every '#' sheet is stored under its name
      and its parent class is read from its first header, which must exist and parse. */
  function RegisterFrom(reg: Registry, all: seq<ExcelSheetData>): Result<Registry>
    decreases |all|
  {
    if all == [] then Ok(reg)
    else if !IsCompositionName(all[0].sheetName) then RegisterFrom(reg, all[1..])
    else
      var name := all[0].sheetName;
      var sheets := Put(reg.sheets, name, all[0]);
      if all[0].headers == [] then Err(IndexOutOfBounds(0))
      else
        match Parse(all[0].headers[0])
        case Err(f) => Err(f)
        case Ok(ext) => RegisterFrom(Registry(sheets, Put(reg.parents, name, ext.className)), all[1..])
  }

  function SheetNames(all: seq<ExcelSheetData>): (ns: seq<string>)
    ensures |ns| == |all| && forall k :: 0 <= k < |all| ==> ns[k] == all[k].sheetName
  {
    seq(|all|, k requires 0 <= k < |all| => all[k].sheetName)
  }

  /** A composition sheet the constructor can register. */
  predicate Registrable(sheet: ExcelSheetData) {
    sheet.headers != [] && Parse(sheet.headers[0]).Ok?
  }

  /** The constructor succeeds exactly when every '#' sheet has a parsable first header. Then,
      with distinct sheet names, every '#' sheet is stored under its name with the class of its
      first header as parent, and no other name is touched. */
  lemma RegisterShape(reg: Registry, all: seq<ExcelSheetData>)
    requires NoRepeats(SheetNames(all))
    ensures RegisterFrom(reg, all).Ok? <==>
              forall k :: 0 <= k < |all| && IsCompositionName(all[k].sheetName) ==> Registrable(all[k])
    ensures RegisterFrom(reg, all).Ok? ==>
              var r := RegisterFrom(reg, all).value;
              (forall k :: 0 <= k < |all| && IsCompositionName(all[k].sheetName) ==>
                 Get(r.sheets, all[k].sheetName) == Some(all[k]) &&
                 Get(r.parents, all[k].sheetName) == Some(Parse(all[k].headers[0]).value.className)) &&
              (forall x :: x !in SheetNames(all) || !IsCompositionName(x) ==>
                 Get(r.sheets, x) == Get(reg.sheets, x) && Get(r.parents, x) == Get(reg.parents, x))
  {
    RegisterOk(reg, all);
    if RegisterFrom(reg, all).Ok? {
      RegisterValues(reg, all);
      forall x | x !in SheetNames(all) || !IsCompositionName(x)
        ensures var r := RegisterFrom(reg, all).value;
                Get(r.sheets, x) == Get(reg.sheets, x) && Get(r.parents, x) == Get(reg.parents, x)
      {
        RegisterKeeps(reg, all, x);
      }
    }
  }

  /** One step of the constructor's loop over a '#' sheet it can register. */
  lemma RegisterStep(reg: Registry, all: seq<ExcelSheetData>)
    requires all != [] && IsCompositionName(all[0].sheetName) && Registrable(all[0])
    ensures RegisterFrom(reg, all) ==
            RegisterFrom(Registry(Put(reg.sheets, all[0].sheetName, all[0]),
                                  Put(reg.parents, all[0].sheetName, Parse(all[0].headers[0]).value.className)), all[1..])
  {
  }

  lemma {:induction false} RegisterOk(reg: Registry, all: seq<ExcelSheetData>)
    ensures RegisterFrom(reg, all).Ok? <==>
              forall k :: 0 <= k < |all| && IsCompositionName(all[k].sheetName) ==> Registrable(all[k])
    decreases |all|
  {
    if all != [] {
      var tail := all[1..];
      assert forall k :: 0 < k < |all| ==> all[k] == tail[k - 1];
      if !IsCompositionName(all[0].sheetName) {
        RegisterOk(reg, tail);
      } else if Registrable(all[0]) {
        var name := all[0].sheetName;
        var next := Registry(Put(reg.sheets, name, all[0]), Put(reg.parents, name, Parse(all[0].headers[0]).value.className));
        RegisterStep(reg, all);
        RegisterOk(next, tail);
      }
    }
  }

  /** A name that is not a '#' sheet's name keeps its entries. */
  lemma {:induction false} RegisterKeeps(reg: Registry, all: seq<ExcelSheetData>, x: string)
    requires RegisterFrom(reg, all).Ok?
    requires x !in SheetNames(all) || !IsCompositionName(x)
    ensures var r := RegisterFrom(reg, all).value;
            Get(r.sheets, x) == Get(reg.sheets, x) && Get(r.parents, x) == Get(reg.parents, x)
    decreases |all|
  {
    if all != [] {
      var tail := all[1..];
      assert SheetNames(tail) == SheetNames(all)[1..];
      var name := all[0].sheetName;
      if !IsCompositionName(name) {
        RegisterKeeps(reg, tail, x);
      } else {
        var ext := Parse(all[0].headers[0]).value;
        var next := Registry(Put(reg.sheets, name, all[0]), Put(reg.parents, name, ext.className));
        RegisterStep(reg, all);
        RegisterKeeps(next, tail, x);
        assert x != name;
        GetPut(reg.sheets, name, all[0], x);
        GetPut(reg.parents, name, ext.className, x);
      }
    }
  }

  /** With distinct sheet names, every '#' sheet is stored under its name with the class of its
      first header as parent. */
  lemma {:induction false} RegisterValues(reg: Registry, all: seq<ExcelSheetData>)
    requires NoRepeats(SheetNames(all))
    requires RegisterFrom(reg, all).Ok?
    ensures var r := RegisterFrom(reg, all).value;
            forall k :: 0 <= k < |all| && IsCompositionName(all[k].sheetName) ==>
              Registrable(all[k]) &&
              Get(r.sheets, all[k].sheetName) == Some(all[k]) &&
              Get(r.parents, all[k].sheetName) == Some(Parse(all[k].headers[0]).value.className)
    decreases |all|
  {
    if all != [] {
      var tail := all[1..];
      assert SheetNames(tail) == SheetNames(all)[1..];
      assert forall k :: 0 < k < |all| ==> all[k] == tail[k - 1];
      var name := all[0].sheetName;
      var r := RegisterFrom(reg, all).value;
      if !IsCompositionName(name) {
        RegisterValues(reg, tail);
      } else {
        var ext := Parse(all[0].headers[0]).value;
        var next := Registry(Put(reg.sheets, name, all[0]), Put(reg.parents, name, ext.className));
        RegisterStep(reg, all);
        RegisterValues(next, tail);
        assert name !in SheetNames(tail);
        RegisterKeeps(next, tail, name);
        GetPut(reg.sheets, name, all[0], name);
        GetPut(reg.parents, name, ext.className, name);
      }
    }
  }


  /** getCompositionParentHeader: the first header, or "" for a sheet without headers. */
  function ParentHeader(sheet: ExcelSheetData): string {
    if sheet.headers != [] then sheet.headers[0] else []
  }

  /** The recorded parents have no cycle: rank strictly decreases from a composition to each
      composition whose parent class is its name without the '#'. */
  ghost predicate Ranked(parents: OMap<string, string>, rank: string -> nat) {
    forall i, j :: 0 <= i < |parents| && 0 <= j < |parents| && parents[i].1 == Role(parents[j].0) ==>
      rank(parents[i].0) < rank(parents[j].0)
  }

  /** buildNestedComposition of a composition for a parent value: the composition's rows whose
      first cell is that value, each as its row data, in a map {create: [rows]}. A missing
      sheet is the NullPointerException of compositionSheet.getHeaders(). */
  function Nested(reg: Registry, name: string, pv: string, ghost rank: string -> nat): Result<Node>
    requires Ranked(reg.parents, rank) && name in KeySet(reg.parents)
    decreases rank(name), 3, 0
  {
    match Get(reg.sheets, name)
    case None => Err(NullValue)
    case Some(sheet) =>
      var objs :- KeptFrom([], sheet.rows, RowObjects(reg, name, sheet, rank), pv, 0);
      Ok(Fields([("create", Items(objs))]))
  }

  /** The row data of every row of a composition sheet. */
  function RowObjects(reg: Registry, name: string, sheet: ExcelSheetData, ghost rank: string -> nat): (outs: seq<Result<OMap<string, Node>>>)
    requires Ranked(reg.parents, rank) && name in KeySet(reg.parents)
    ensures |outs| == |sheet.rows|
    decreases rank(name), 2, 0
  {
    seq(|sheet.rows|, m requires 0 <= m < |sheet.rows| =>
      ColumnsFrom(reg, name, sheet.headers, sheet.rows[m], [], 1, rank))
  }

  /** The row-data loop from column i: at each column, first the nested create of every child
      composition whose parent header is this column's header, stored under the child's name
      without '#', then the column's own value under its header. A short row reads as "". */
  function ColumnsFrom(reg: Registry, name: string, headers: seq<string>, row: seq<string>,
                       acc: OMap<string, Node>, i: nat, ghost rank: string -> nat): Result<OMap<string, Node>>
    requires Ranked(reg.parents, rank) && name in KeySet(reg.parents)
    decreases rank(name), 1, |headers| - i
  {
    if i >= |headers| then Ok(acc)
    else
      var value := if i < |row| then row[i] else [];
      var children := CompositionsFor(reg.parents, Role(name));
      var acc' :- ChildrenFrom(reg, name, headers[i], value, children, acc, 0, rank);
      ColumnsFrom(reg, name, headers, row, Put(acc', headers[i], Text(value)), i + 1, rank)
  }

  /** The child loop of one column, from child j. */
  function ChildrenFrom(reg: Registry, name: string, header: string, value: string, children: seq<string>,
                        acc: OMap<string, Node>, j: nat, ghost rank: string -> nat): Result<OMap<string, Node>>
    requires Ranked(reg.parents, rank) && name in KeySet(reg.parents)
    requires children == CompositionsFor(reg.parents, Role(name))
    decreases rank(name), 0, |children| - j
  {
    if j >= |children| then Ok(acc)
    else
      var child := children[j];
      var sheet := Get(reg.sheets, child);
      if sheet.Some? && header == ParentHeader(sheet.value) then
        ChildRanked(reg.parents, rank, name, child);
        var nested :- Nested(reg, child, value, rank);
        ChildrenFrom(reg, name, header, value, children, Put(acc, Role(child), nested), j + 1, rank)
      else
        ChildrenFrom(reg, name, header, value, children, acc, j + 1, rank)
  }

  /** A child composition is registered and ranks below its parent composition. */
  lemma ChildRanked(parents: OMap<string, string>, rank: string -> nat, name: string, child: string)
    requires Ranked(parents, rank) && name in KeySet(parents)
    requires child in CompositionsFor(parents, Role(name))
    ensures child in KeySet(parents) && rank(child) < rank(name)
  {
    CompositionsForMembers(parents, Role(name));
    var i :| 0 <= i < |parents| && parents[i] == (child, Role(name));
    var j :| 0 <= j < |parents| && parents[j].0 == name;
    assert parents[i].0 == child;
  }

  /** The row filter of buildNestedComposition, from row k: a row whose first cell is not the
      parent value is passed over; the others contribute their row data. row.get(0) of an
      empty row throws. */
  function KeptFrom(acc: seq<Node>, rows: seq<seq<string>>, outs: seq<Result<OMap<string, Node>>>, pv: string, k: nat): Result<seq<Node>>
    requires |outs| == |rows|
    decreases |rows| - k
  {
    if k >= |rows| then Ok(acc)
    else if rows[k] == [] then Err(IndexOutOfBounds(0))
    else if rows[k][0] != pv then KeptFrom(acc, rows, outs, pv, k + 1)
    else
      var data :- outs[k];
      KeptFrom(acc + [Fields(data)], rows, outs, pv, k + 1)
  }

  /** The value stored under "create", or null when there is none (Map.get). */
  function CreateOf(attrs: OMap<string, Node>): Node {
    match Get(attrs, "create")
    case Some(v) => v
    case None => Null
  }

  /** buildUpdateMutationString: the parent object updated by its identifying attribute, its
      quoted value, and a create of the composition role rendered from attrs.get("create"). */
  function UpdateMutation(obj: string, attr: string, value: string, role: string, attrs: OMap<string, Node>): string {
    MutationBuilder.Frame(obj + GraphQLUpdateSuffix, RoleData(attr, value, role, Format(CreateOf(attrs))))
  }

  /** The data of a parent update: the identifying attribute with its quoted value, then the
      role object whose "create" entry is the given text. */
  function RoleData(attr: string, value: string, role: string, create: string): string {
    (attr + ": \"" + value + "\", ") + (role + ": { create: " + create + " }")
  }

  /** An update mutation reads back as the update operation of the parent class, with the
      parent named by its quoted identifying value first and the rendered create of the role
      last. */
  lemma UpdateReadsBack(obj: string, attr: string, value: string, role: string, attrs: OMap<string, Node>)
    requires '(' !in obj
    ensures var m := MutationBuilder.Unframe(UpdateMutation(obj, attr, value, role, attrs));
            m.Some? && m.value.0 == obj + GraphQLUpdateSuffix &&
            StartsWith(m.value.1, attr + ": \"" + value + "\", ") &&
            EndsWith(m.value.1, role + ": { create: " + Format(CreateOf(attrs)) + " }")
  {
    var head := attr + ": \"" + value + "\", ";
    var tail := role + ": { create: " + Format(CreateOf(attrs)) + " }";
    assert '(' !in GraphQLUpdateSuffix;
    MutationBuilder.UnframeFrame(obj + GraphQLUpdateSuffix, head + tail);
    var data := head + tail;
    assert data[..|head|] == head;
    assert data[|data| - |tail|..] == tail;
  }

  /** The row loop of a root composition, from row k: one update per row, for the parent named
      by the row's first cell. */
  function RootRowsFrom(acc: seq<string>, rows: seq<seq<string>>, outs: seq<Result<OMap<string, Node>>>,
                        parent: ExternalAttribute, role: string, k: nat): Result<seq<string>>
    requires |outs| == |rows|
    decreases |rows| - k
  {
    if k >= |rows| then Ok(acc)
    else if rows[k] == [] then Err(IndexOutOfBounds(0))
    else
      var attrs :- outs[k];
      var m := UpdateMutation(parent.className, parent.attributeName, rows[k][0], role, attrs);
      RootRowsFrom(acc + [m], rows, outs, parent, role, k + 1)
  }

  /** The joined updates of one root composition, None when its sheet is missing. */
  function RootOf(reg: Registry, root: string, ghost rank: string -> nat): Result<Option<string>>
    requires Ranked(reg.parents, rank) && root in KeySet(reg.parents)
  {
    match Get(reg.sheets, root)
    case None => Ok(None)
    case Some(sheet) =>
      if sheet.headers == [] then Err(IndexOutOfBounds(0))
      else
        var parent :- Parse(sheet.headers[0]);
        var ms :- RootRowsFrom([], sheet.rows, RowObjects(reg, root, sheet, rank), parent, Role(root), 0);
        Ok(Some(Lines(ms)))
  }

  /** The root loop of one main sheet, from root j: each root's joined updates stored under
      its name without '#'. */
  function RootsFrom(reg: Registry, roots: seq<string>, acc: OMap<string, string>, j: nat, ghost rank: string -> nat): Result<OMap<string, string>>
    requires Ranked(reg.parents, rank) && forall r :: r in roots ==> r in KeySet(reg.parents)
    decreases |roots| - j
  {
    if j >= |roots| then Ok(acc)
    else
      var out :- RootOf(reg, roots[j], rank);
      RootsFrom(reg, roots, if out.Some? then Put(acc, Role(roots[j]), out.value) else acc, j + 1, rank)
  }

  /** Every root composition's parent lies in the registry. */
  lemma RootsRegistered(parents: OMap<string, string>, main: string)
    ensures forall r :: r in CompositionsFor(parents, main) ==> r in KeySet(parents)
  {
    CompositionsForMembers(parents, main);
    forall r | r in CompositionsFor(parents, main) ensures r in KeySet(parents) {
      var i :| 0 <= i < |parents| && parents[i] == (r, main);
      assert parents[i].0 == r;
    }
  }

  /** The main loop, from main sheet m. */
  function MainsFrom(reg: Registry, mains: seq<string>, acc: OMap<string, string>, m: nat, ghost rank: string -> nat): Result<OMap<string, string>>
    requires Ranked(reg.parents, rank)
    decreases |mains| - m
  {
    if m >= |mains| then Ok(acc)
    else
      var roots := CompositionsFor(reg.parents, mains[m]);
      RootsRegistered(reg.parents, mains[m]);
      var acc' :- RootsFrom(reg, roots, acc, 0, rank);
      MainsFrom(reg, mains, acc', m + 1, rank)
  }

  /** A main sheet: not a composition and not the mapping sheet. */
  predicate IsMainName(name: string) {
    !IsCompositionName(name) && name != MappingSheetName
  }

  /** The main names, each once, in the order first met (the HashSet's order taken as that). */
  function MainNamesFrom(acc: seq<string>, all: seq<ExcelSheetData>): (ns: seq<string>)
    ensures forall x :: x in ns <==> x in acc || exists k :: 0 <= k < |all| && all[k].sheetName == x && IsMainName(x)
    ensures NoRepeats(acc) ==> NoRepeats(ns)
    decreases |all|
  {
    if all == [] then acc
    else
      var acc' := if IsMainName(all[0].sheetName) then AddValue(acc, all[0].sheetName) else acc;
      assert forall k :: 0 < k < |all| ==> all[k] == all[1..][k - 1];
      MainNamesFrom(acc', all[1..])
  }

  /** The first loop of buildNestedCompositionsUpdateMutations: the main sheet names. */
  method MainNames(allSheets: seq<ExcelSheetData>) returns (mainNames: seq<string>)
    ensures mainNames == MainNamesFrom([], allSheets)
  {
    mainNames := [];
    var k := 0;
    while k < |allSheets|
      invariant k <= |allSheets|
      invariant MainNamesFrom(mainNames, allSheets[k..]) == MainNamesFrom([], allSheets)
    {
      assert allSheets[k..][0] == allSheets[k] && allSheets[k..][1..] == allSheets[k + 1..];
      var name := allSheets[k].sheetName;
      if IsMainName(name) {
        mainNames := AddValue(mainNames, name);
      }
      k := k + 1;
    }
    assert allSheets[k..] == [];
  }

  /** buildNestedCompositionsUpdateMutations. */
  function BuildAll(reg: Registry, all: seq<ExcelSheetData>, ghost rank: string -> nat): Result<OMap<string, string>>
    requires Ranked(reg.parents, rank)
  {
    MainsFrom(reg, MainNamesFrom([], all), [], 0, rank)
  }

  /** The number of rows whose first cell is the parent value. */
  function MatchCount(rows: seq<seq<string>>, pv: string): nat {
    if rows == [] then 0
    else (if rows[0] != [] && rows[0][0] == pv then 1 else 0) + MatchCount(rows[1..], pv)
  }

  lemma MatchCountStep(rows: seq<seq<string>>, pv: string, k: nat, m: nat)
    requires k < m <= |rows|
    ensures MatchCount(rows[k..m], pv) == (if rows[k] != [] && rows[k][0] == pv then 1 else 0) + MatchCount(rows[k + 1..m], pv)
  {
    assert rows[k..m][0] == rows[k] && rows[k..m][1..] == rows[k + 1..m];
  }

  /** MatchCount of every slice from k, peeled one row. */
  lemma MatchCountsFrom(rows: seq<seq<string>>, pv: string, k: nat)
    requires k < |rows|
    ensures forall m :: k < m <= |rows| ==>
              MatchCount(rows[k..m], pv) == (if rows[k] != [] && rows[k][0] == pv then 1 else 0) + MatchCount(rows[k + 1..m], pv)
    ensures MatchCount(rows[k..], pv) == (if rows[k] != [] && rows[k][0] == pv then 1 else 0) + MatchCount(rows[k + 1..], pv)
    ensures rows[k..k] == [] && rows[k + 1..k + 1] == []
  {
    forall m | k < m <= |rows|
      ensures MatchCount(rows[k..m], pv) == (if rows[k] != [] && rows[k][0] == pv then 1 else 0) + MatchCount(rows[k + 1..m], pv)
    {
      MatchCountStep(rows, pv, k, m);
    }
    assert rows[k..|rows|] == rows[k..] && rows[k + 1..|rows|] == rows[k + 1..];
  }

  /** The row filter succeeds exactly when every row from k has a first cell and the row data
      of every row whose first cell is the parent value was built. */
  lemma {:induction false} KeptOk(acc: seq<Node>, rows: seq<seq<string>>, outs: seq<Result<OMap<string, Node>>>, pv: string, k: nat)
    requires |outs| == |rows| && k <= |rows|
    ensures KeptFrom(acc, rows, outs, pv, k).Ok? <==>
              forall m :: k <= m < |rows| ==> rows[m] != [] && (rows[m][0] == pv ==> outs[m].Ok?)
    decreases |rows| - k
  {
    if k < |rows| && rows[k] != [] {
      if rows[k][0] != pv {
        KeptOk(acc, rows, outs, pv, k + 1);
      } else if outs[k].Ok? {
        KeptOk(acc + [Fields(outs[k].value)], rows, outs, pv, k + 1);
      }
    }
  }

  /** The row filter keeps one object per row whose first cell is the parent value, in row
      order, each that row's data, and nothing for the other rows. */
  lemma {:induction false} KeptObjects(acc: seq<Node>, rows: seq<seq<string>>, outs: seq<Result<OMap<string, Node>>>, pv: string, k: nat)
    requires |outs| == |rows| && k <= |rows|
    ensures KeptFrom(acc, rows, outs, pv, k).Ok? ==>
              var objs := KeptFrom(acc, rows, outs, pv, k).value;
              |objs| == |acc| + MatchCount(rows[k..], pv) && objs[..|acc|] == acc &&
              forall m :: k <= m < |rows| && rows[m] != [] && rows[m][0] == pv ==>
                |acc| + MatchCount(rows[k..m], pv) < |objs| && outs[m].Ok? &&
                objs[|acc| + MatchCount(rows[k..m], pv)] == Fields(outs[m].value)
  {
    KeptPrefix(acc, rows, outs, pv, k);
    KeptAt(acc, rows, outs, pv, k);
  }

  /** The length-and-prefix half of KeptObjects. */
  lemma {:induction false} KeptPrefix(acc: seq<Node>, rows: seq<seq<string>>, outs: seq<Result<OMap<string, Node>>>, pv: string, k: nat)
    requires |outs| == |rows| && k <= |rows|
    ensures KeptFrom(acc, rows, outs, pv, k).Ok? ==>
              var objs := KeptFrom(acc, rows, outs, pv, k).value;
              |objs| == |acc| + MatchCount(rows[k..], pv) && objs[..|acc|] == acc
    decreases |rows| - k
  {
    if k < |rows| && KeptFrom(acc, rows, outs, pv, k).Ok? {
      var objs := KeptFrom(acc, rows, outs, pv, k).value;
      MatchCountsFrom(rows, pv, k);
      if rows[k][0] != pv {
        KeptPrefix(acc, rows, outs, pv, k + 1);
      } else {
        var acc' := acc + [Fields(outs[k].value)];
        KeptPrefix(acc', rows, outs, pv, k + 1);
        assert objs == KeptFrom(acc', rows, outs, pv, k + 1).value;
        assert objs[..|acc'|] == acc';
        assert objs[..|acc|] == acc'[..|acc|];
      }
    }
  }

  /** The per-row half of KeptObjects. */
  lemma {:induction false} KeptAt(acc: seq<Node>, rows: seq<seq<string>>, outs: seq<Result<OMap<string, Node>>>, pv: string, k: nat)
    requires |outs| == |rows| && k <= |rows|
    ensures KeptFrom(acc, rows, outs, pv, k).Ok? ==>
              var objs := KeptFrom(acc, rows, outs, pv, k).value;
              forall m :: k <= m < |rows| && rows[m] != [] && rows[m][0] == pv ==>
                |acc| + MatchCount(rows[k..m], pv) < |objs| && outs[m].Ok? &&
                objs[|acc| + MatchCount(rows[k..m], pv)] == Fields(outs[m].value)
    decreases |rows| - k
  {
    if k < |rows| && KeptFrom(acc, rows, outs, pv, k).Ok? {
      var objs := KeptFrom(acc, rows, outs, pv, k).value;
      MatchCountsFrom(rows, pv, k);
      if rows[k][0] != pv {
        KeptAt(acc, rows, outs, pv, k + 1);
      } else {
        var acc' := acc + [Fields(outs[k].value)];
        KeptAt(acc', rows, outs, pv, k + 1);
        KeptPrefix(acc', rows, outs, pv, k + 1);
        assert objs == KeptFrom(acc', rows, outs, pv, k + 1).value;
        assert objs[..|acc'|] == acc';
        assert objs[|acc|] == acc'[|acc|];
      }
    }
  }

  /** buildNestedComposition wraps the kept rows as {create: [rows]}: one object per row of the
      sheet whose first cell is the parent value, each that row's data. */
  lemma NestedShape(reg: Registry, name: string, pv: string, rank: string -> nat)
    requires Ranked(reg.parents, rank) && name in KeySet(reg.parents)
    ensures Get(reg.sheets, name).None? ==> Nested(reg, name, pv, rank) == Err(NullValue)
    ensures Nested(reg, name, pv, rank).Ok? ==>
              var rows := Get(reg.sheets, name).value.rows;
              var headers := Get(reg.sheets, name).value.headers;
              exists objs: seq<Node> ::
                Nested(reg, name, pv, rank) == Ok(Fields([("create", Items(objs))])) &&
                |objs| == MatchCount(rows, pv) &&
                forall m :: 0 <= m < |rows| && rows[m] != [] && rows[m][0] == pv ==>
                  ColumnsFrom(reg, name, headers, rows[m], [], 1, rank).Ok? && MatchCount(rows[..m], pv) < |objs| &&
                  objs[MatchCount(rows[..m], pv)] == Fields(ColumnsFrom(reg, name, headers, rows[m], [], 1, rank).value)
  {
    var sheet := Get(reg.sheets, name);
    if sheet.Some? {
      var outs := RowObjects(reg, name, sheet.value, rank);
      var rows := sheet.value.rows;
      var headers := sheet.value.headers;
      var kept := KeptFrom([], rows, outs, pv, 0);
      KeptObjects([], rows, outs, pv, 0);
      if kept.Ok? {
        var objs := kept.value;
        assert Nested(reg, name, pv, rank) == Ok(Fields([("create", Items(objs))]));
        assert rows[0..] == rows;
        forall m | 0 <= m < |rows| && rows[m] != [] && rows[m][0] == pv
          ensures ColumnsFrom(reg, name, headers, rows[m], [], 1, rank).Ok? && MatchCount(rows[..m], pv) < |objs| &&
                  objs[MatchCount(rows[..m], pv)] == Fields(ColumnsFrom(reg, name, headers, rows[m], [], 1, rank).value)
        {
          assert rows[0..m] == rows[..m];
          assert outs[m] == ColumnsFrom(reg, name, headers, rows[m], [], 1, rank);
        }
      }
    }
  }

  /** The keys the row-data loop can add from column i: the headers from i on and the names,
      without '#', of the child compositions. */
  predicate RowKey(reg: Registry, name: string, headers: seq<string>, i: nat, x: string) {
    (exists t :: i <= t < |headers| && headers[t] == x) || ChildKey(CompositionsFor(reg.parents, Role(name)), x)
  }

  /** x is the name, without '#', of one of the children. */
  predicate ChildKey(children: seq<string>, x: string) {
    exists c :: c in children && Role(c) == x
  }

  lemma {:induction false} ChildrenKeys(reg: Registry, name: string, header: string, value: string, children: seq<string>,
                                        acc: OMap<string, Node>, j: nat, rank: string -> nat)
    requires Ranked(reg.parents, rank) && name in KeySet(reg.parents)
    requires children == CompositionsFor(reg.parents, Role(name))
    ensures ChildrenFrom(reg, name, header, value, children, acc, j, rank).Ok? ==>
              forall x :: x in KeySet(ChildrenFrom(reg, name, header, value, children, acc, j, rank).value) ==>
                x in KeySet(acc) || ChildKey(children, x)
    decreases |children| - j
  {
    if j < |children| {
      var child := children[j];
      var sheet := Get(reg.sheets, child);
      ChildStep(reg, name, header, value, children, acc, j, rank);
      if sheet.Some? && header == ParentHeader(sheet.value) {
        ChildRanked(reg.parents, rank, name, child);
        var nested := Nested(reg, child, value, rank);
        if nested.Ok? {
          var acc' := Put(acc, Role(child), nested.value);
          ChildrenKeys(reg, name, header, value, children, acc', j + 1, rank);
          KeysThroughPut(ChildrenFrom(reg, name, header, value, children, acc, j, rank),
                         ChildrenFrom(reg, name, header, value, children, acc', j + 1, rank), acc, child, nested.value, children);
        }
      } else {
        ChildrenKeys(reg, name, header, value, children, acc, j + 1, rank);
      }
    }
  }

  /** Child j of the child loop: a child whose parent header is this column's adds its nested
      create under its name without '#'; any other child is passed over. */
  lemma ChildStep(reg: Registry, name: string, header: string, value: string, children: seq<string>,
                  acc: OMap<string, Node>, j: nat, rank: string -> nat)
    requires Ranked(reg.parents, rank) && name in KeySet(reg.parents)
    requires children == CompositionsFor(reg.parents, Role(name)) && j < |children|
    ensures var sheet := Get(reg.sheets, children[j]);
            !(sheet.Some? && header == ParentHeader(sheet.value)) ==>
              ChildrenFrom(reg, name, header, value, children, acc, j, rank) ==
              ChildrenFrom(reg, name, header, value, children, acc, j + 1, rank)
    ensures var sheet := Get(reg.sheets, children[j]);
            sheet.Some? && header == ParentHeader(sheet.value) && children[j] in KeySet(reg.parents) &&
            Nested(reg, children[j], value, rank).Ok? ==>
              ChildrenFrom(reg, name, header, value, children, acc, j, rank) ==
              ChildrenFrom(reg, name, header, value, children, Put(acc, Role(children[j]), Nested(reg, children[j], value, rank).value), j + 1, rank)
  {
  }

  lemma KeysThroughPut(r: Result<OMap<string, Node>>, next: Result<OMap<string, Node>>, acc: OMap<string, Node>,
                       child: string, v: Node, children: seq<string>)
    requires r == next && child in children
    requires next.Ok? ==> forall x :: x in KeySet(next.value) ==> x in KeySet(Put(acc, Role(child), v)) || ChildKey(children, x)
    ensures r.Ok? ==> forall x :: x in KeySet(r.value) ==> x in KeySet(acc) || ChildKey(children, x)
  {
    assert ChildKey(children, Role(child));
  }

  /** Every key of a row's data is one of its headers or a child composition's name. */
  lemma {:induction false} ColumnsKeys(reg: Registry, name: string, headers: seq<string>, row: seq<string>,
                                       acc: OMap<string, Node>, i: nat, rank: string -> nat)
    requires Ranked(reg.parents, rank) && name in KeySet(reg.parents)
    ensures ColumnsFrom(reg, name, headers, row, acc, i, rank).Ok? ==>
              forall x :: x in KeySet(ColumnsFrom(reg, name, headers, row, acc, i, rank).value) ==>
                x in KeySet(acc) || RowKey(reg, name, headers, i, x)
    decreases |headers| - i
  {
    if i < |headers| {
      var value := if i < |row| then row[i] else [];
      var children := CompositionsFor(reg.parents, Role(name));
      var c := ChildrenFrom(reg, name, headers[i], value, children, acc, 0, rank);
      if c.Ok? {
        var acc' := Put(c.value, headers[i], Text(value));
        ColumnStep(reg, name, headers, row, acc, i, rank);
        ChildrenKeys(reg, name, headers[i], value, children, acc, 0, rank);
        ColumnsKeys(reg, name, headers, row, acc', i + 1, rank);
        KeysThroughColumn(reg, name, headers, i, ColumnsFrom(reg, name, headers, row, acc', i + 1, rank), acc, c.value, value);
      }
    }
  }

  /** Column i of a row whose child loop succeeds: its children, then its own cell, then the
      columns after it. */
  lemma ColumnStep(reg: Registry, name: string, headers: seq<string>, row: seq<string>,
                   acc: OMap<string, Node>, i: nat, rank: string -> nat)
    requires Ranked(reg.parents, rank) && name in KeySet(reg.parents) && i < |headers|
    requires ChildrenFrom(reg, name, headers[i], if i < |row| then row[i] else [], CompositionsFor(reg.parents, Role(name)), acc, 0, rank).Ok?
    ensures var value := if i < |row| then row[i] else [];
            var c := ChildrenFrom(reg, name, headers[i], value, CompositionsFor(reg.parents, Role(name)), acc, 0, rank);
            ColumnsFrom(reg, name, headers, row, acc, i, rank) ==
            ColumnsFrom(reg, name, headers, row, Put(c.value, headers[i], Text(value)), i + 1, rank)
  {
  }

  /** One column's step of ColumnsKeys: the keys after column i are those of acc, the children's
      names and the headers from i on. */
  lemma KeysThroughColumn(reg: Registry, name: string, headers: seq<string>, i: nat, next: Result<OMap<string, Node>>,
                          acc: OMap<string, Node>, afterChildren: OMap<string, Node>, value: string)
    requires i < |headers|
    requires forall x :: x in KeySet(afterChildren) ==> x in KeySet(acc) || ChildKey(CompositionsFor(reg.parents, Role(name)), x)
    requires next.Ok? ==> forall x :: x in KeySet(next.value) ==>
               x in KeySet(Put(afterChildren, headers[i], Text(value))) || RowKey(reg, name, headers, i + 1, x)
    ensures next.Ok? ==> forall x :: x in KeySet(next.value) ==> x in KeySet(acc) || RowKey(reg, name, headers, i, x)
  {
    if next.Ok? {
      forall x | x in KeySet(next.value) ensures x in KeySet(acc) || RowKey(reg, name, headers, i, x) {
        if x == headers[i] {
          assert RowKey(reg, name, headers, i, x);
        }
      }
    }
  }

  /** The update of a root row: the parent's class and identifying attribute from the root's
      first header, the row's first cell quoted, and the create rendered from the row data. */
  lemma {:induction false} RootRowsShape(acc: seq<string>, rows: seq<seq<string>>, outs: seq<Result<OMap<string, Node>>>,
                                         parent: ExternalAttribute, role: string, k: nat)
    requires |outs| == |rows| && k <= |rows|
    ensures RootRowsFrom(acc, rows, outs, parent, role, k).Ok? <==>
              forall m :: k <= m < |rows| ==> rows[m] != [] && outs[m].Ok?
    ensures RootRowsFrom(acc, rows, outs, parent, role, k).Ok? ==>
              var ms := RootRowsFrom(acc, rows, outs, parent, role, k).value;
              |ms| == |acc| + |rows| - k && ms[..|acc|] == acc &&
              forall m :: k <= m < |rows| ==>
                ms[|acc| + m - k] == UpdateMutation(parent.className, parent.attributeName, rows[m][0], role, outs[m].value)
    decreases |rows| - k
  {
    if k < |rows| && rows[k] != [] && outs[k].Ok? {
      var m0 := UpdateMutation(parent.className, parent.attributeName, rows[k][0], role, outs[k].value);
      var next := RootRowsFrom(acc + [m0], rows, outs, parent, role, k + 1);
      assert RootRowsFrom(acc, rows, outs, parent, role, k) == next;
      RootRowsShape(acc + [m0], rows, outs, parent, role, k + 1);
      if next.Ok? {
        var ms := next.value;
        assert ms[..|acc| + 1] == acc + [m0];
        assert ms[..|acc|] == (acc + [m0])[..|acc|];
        assert ms[|acc|] == m0;
        forall m | k + 1 <= m < |rows|
          ensures ms[|acc| + m - k] == UpdateMutation(parent.className, parent.attributeName, rows[m][0], role, outs[m].value)
        {
          assert |acc + [m0]| + m - (k + 1) == |acc| + m - k;
        }
      }
    }
  }

  /** A root row's data holds no "create" entry unless a header or a child is named so. */
  lemma RowHasNoCreate(reg: Registry, root: string, headers: seq<string>, row: seq<string>, rank: string -> nat)
    requires Ranked(reg.parents, rank) && root in KeySet(reg.parents)
    requires forall t :: 1 <= t < |headers| ==> headers[t] != "create"
    requires forall c :: c in CompositionsFor(reg.parents, Role(root)) ==> Role(c) != "create"
    ensures ColumnsFrom(reg, root, headers, row, [], 1, rank).Ok? ==>
              CreateOf(ColumnsFrom(reg, root, headers, row, [], 1, rank).value) == Null
  {
    ColumnsKeys(reg, root, headers, row, [], 1, rank);
  }

  /** The root update renders attrs.get("create"), but the root's row data holds only its
      headers and its children's names: unless a header or a child is named "create", every
      root update says "create: null", whatever the row and its children hold. */
  lemma RootRendersNull(reg: Registry, root: string, rank: string -> nat)
    requires Ranked(reg.parents, rank) && root in KeySet(reg.parents)
    requires Get(reg.sheets, root).Some?
    requires var hs := Get(reg.sheets, root).value.headers; forall t :: 1 <= t < |hs| ==> hs[t] != "create"
    requires forall c :: c in CompositionsFor(reg.parents, Role(root)) ==> Role(c) != "create"
    ensures RootOf(reg, root, rank).Ok? ==>
              var sheet := Get(reg.sheets, root).value;
              var parent := Parse(sheet.headers[0]).value;
              exists ms: seq<string> ::
                RootOf(reg, root, rank) == Ok(Some(Lines(ms))) && |ms| == |sheet.rows| &&
                forall m :: 0 <= m < |sheet.rows| ==>
                  sheet.rows[m] != [] &&
                  ms[m] == NullUpdateText(parent.className, parent.attributeName, sheet.rows[m][0], Role(root))
  {
    var sheet := Get(reg.sheets, root).value;
    if RootOf(reg, root, rank).Ok? {
      var parent := Parse(sheet.headers[0]).value;
      var outs := RowObjects(reg, root, sheet, rank);
      forall m | 0 <= m < |outs| && outs[m].Ok? ensures CreateOf(outs[m].value) == Null {
        RowHasNoCreate(reg, root, sheet.headers, sheet.rows[m], rank);
      }
      var ms := RootRowsFrom([], sheet.rows, outs, parent, Role(root), 0).value;
      assert RootOf(reg, root, rank) == Ok(Some(Lines(ms)));
      AllNull(sheet.rows, outs, parent, Role(root));
    }
  }

  /** Rows whose objects all render "create" as null give null updates only. */
  lemma AllNull(rows: seq<seq<string>>, outs: seq<Result<OMap<string, Node>>>, parent: ExternalAttribute, role: string)
    requires |outs| == |rows| && RootRowsFrom([], rows, outs, parent, role, 0).Ok?
    requires forall m :: 0 <= m < |outs| && outs[m].Ok? ==> CreateOf(outs[m].value) == Null
    ensures var ms := RootRowsFrom([], rows, outs, parent, role, 0).value;
            |ms| == |rows| &&
            forall m :: 0 <= m < |rows| ==>
              rows[m] != [] && ms[m] == NullUpdateText(parent.className, parent.attributeName, rows[m][0], role)
  {
    RootRowsShape([], rows, outs, parent, role, 0);
    var ms := RootRowsFrom([], rows, outs, parent, role, 0).value;
    forall m | 0 <= m < |rows|
      ensures rows[m] != [] && ms[m] == NullUpdateText(parent.className, parent.attributeName, rows[m][0], role)
    {
      NullUpdate(parent.className, parent.attributeName, rows[m][0], role, outs[m].value);
    }
  }

  /** An update whose role object renders its "create" entry as null. */
  function NullUpdateText(obj: string, attr: string, value: string, role: string): string {
    MutationBuilder.Frame(obj + GraphQLUpdateSuffix, RoleData(attr, value, role, "null"))
  }

  lemma NullUpdate(obj: string, attr: string, value: string, role: string, attrs: OMap<string, Node>)
    requires CreateOf(attrs) == Null
    ensures UpdateMutation(obj, attr, value, role, attrs) == NullUpdateText(obj, attr, value, role)
  {
  }

  /** x is the name, without '#', of a root from j whose sheet is registered. */
  predicate RootKey(reg: Registry, roots: seq<string>, j: nat, x: string) {
    exists t :: j <= t < |roots| && Get(reg.sheets, roots[t]).Some? && Role(roots[t]) == x
  }

  /** x is the name, without '#', of one of the roots whose sheet is registered. */
  predicate RegisteredRoot(reg: Registry, roots: seq<string>, x: string) {
    exists r :: r in roots && Get(reg.sheets, r).Some? && Role(r) == x
  }

  /** x is the name, without '#', of a registered composition whose parent is a main sheet
      from m. */
  predicate MainKey(reg: Registry, mains: seq<string>, m: nat, x: string) {
    exists t, r :: m <= t < |mains| && r in CompositionsFor(reg.parents, mains[t]) && Get(reg.sheets, r).Some? && Role(r) == x
  }

  lemma RootKeyStep(reg: Registry, roots: seq<string>, j: nat, x: string)
    requires j < |roots|
    ensures RootKey(reg, roots, j, x) <==>
            (Get(reg.sheets, roots[j]).Some? && Role(roots[j]) == x) || RootKey(reg, roots, j + 1, x)
  {
    if RootKey(reg, roots, j, x) {
      var t :| j <= t < |roots| && Get(reg.sheets, roots[t]).Some? && Role(roots[t]) == x;
      if t > j { assert RootKey(reg, roots, j + 1, x); }
    }
  }

  lemma RootKeyAll(reg: Registry, roots: seq<string>, x: string)
    ensures RootKey(reg, roots, 0, x) <==> RegisteredRoot(reg, roots, x)
  {
    if RegisteredRoot(reg, roots, x) {
      var r :| r in roots && Get(reg.sheets, r).Some? && Role(r) == x;
      var t :| 0 <= t < |roots| && roots[t] == r;
      assert RootKey(reg, roots, 0, x);
    }
  }

  lemma MainKeyStep(reg: Registry, mains: seq<string>, m: nat, x: string)
    requires m < |mains|
    ensures MainKey(reg, mains, m, x) <==>
            RegisteredRoot(reg, CompositionsFor(reg.parents, mains[m]), x) || MainKey(reg, mains, m + 1, x)
  {
    if MainKey(reg, mains, m, x) {
      var t, r :| m <= t < |mains| && r in CompositionsFor(reg.parents, mains[t]) && Get(reg.sheets, r).Some? && Role(r) == x;
      if t > m { assert MainKey(reg, mains, m + 1, x); }
    }
    if RegisteredRoot(reg, CompositionsFor(reg.parents, mains[m]), x) {
      var r :| r in CompositionsFor(reg.parents, mains[m]) && Get(reg.sheets, r).Some? && Role(r) == x;
      assert MainKey(reg, mains, m, x);
    }
  }

  /** The root loop adds exactly one key per root from j whose sheet is registered: the root's
      name without '#'. */
  lemma {:induction false} RootsKeys(reg: Registry, roots: seq<string>, acc: OMap<string, string>, j: nat, rank: string -> nat)
    requires Ranked(reg.parents, rank) && forall r :: r in roots ==> r in KeySet(reg.parents)
    ensures RootsFrom(reg, roots, acc, j, rank).Ok? ==>
              forall x :: x in KeySet(RootsFrom(reg, roots, acc, j, rank).value) <==> x in KeySet(acc) || RootKey(reg, roots, j, x)
    decreases |roots| - j
  {
    if j < |roots| {
      var out := RootOf(reg, roots[j], rank);
      if out.Ok? {
        assert out.value.Some? <==> Get(reg.sheets, roots[j]).Some?;
        var acc' := if out.value.Some? then Put(acc, Role(roots[j]), out.value.value) else acc;
        assert RootsFrom(reg, roots, acc, j, rank) == RootsFrom(reg, roots, acc', j + 1, rank);
        RootsKeys(reg, roots, acc', j + 1, rank);
        forall x ensures RootKey(reg, roots, j, x) <==>
                         (Get(reg.sheets, roots[j]).Some? && Role(roots[j]) == x) || RootKey(reg, roots, j + 1, x) {
          RootKeyStep(reg, roots, j, x);
        }
      }
    }
  }

  /** The main loop adds exactly one key per registered composition whose parent is one of the
      main sheets from m: the composition's name without '#'. */
  lemma {:induction false} MainsKeys(reg: Registry, mains: seq<string>, acc: OMap<string, string>, m: nat, rank: string -> nat)
    requires Ranked(reg.parents, rank)
    ensures MainsFrom(reg, mains, acc, m, rank).Ok? ==>
              forall x :: x in KeySet(MainsFrom(reg, mains, acc, m, rank).value) <==> x in KeySet(acc) || MainKey(reg, mains, m, x)
    decreases |mains| - m
  {
    if m < |mains| && MainsFrom(reg, mains, acc, m, rank).Ok? {
      var roots := CompositionsFor(reg.parents, mains[m]);
      RootsRegistered(reg.parents, mains[m]);
      RootsKeys(reg, roots, acc, 0, rank);
      var acc' := RootsFrom(reg, roots, acc, 0, rank).value;
      assert MainsFrom(reg, mains, acc, m, rank) == MainsFrom(reg, mains, acc', m + 1, rank);
      MainsKeys(reg, mains, acc', m + 1, rank);
      forall x ensures MainKey(reg, mains, m, x) <==> RootKey(reg, roots, 0, x) || MainKey(reg, mains, m + 1, x) {
        RootKeyAll(reg, roots, x);
        MainKeyStep(reg, mains, m, x);
      }
    }
  }

  /** buildNestedCompositionsUpdateMutations returns one entry per registered composition whose
      parent is a main sheet, keyed by the composition's name without '#', and nothing else. */
  lemma ResultKeys(reg: Registry, all: seq<ExcelSheetData>, rank: string -> nat)
    requires Ranked(reg.parents, rank)
    ensures var mains := MainNamesFrom([], all);
            BuildAll(reg, all, rank).Ok? ==>
              forall x :: x in KeySet(BuildAll(reg, all, rank).value) <==>
                exists t, r :: 0 <= t < |mains| && r in CompositionsFor(reg.parents, mains[t]) &&
                               Get(reg.sheets, r).Some? && Role(r) == x
  {
    var mains := MainNamesFrom([], all);
    var res := MainsFrom(reg, mains, [], 0, rank);
    assert BuildAll(reg, all, rank) == res;
    MainsKeys(reg, mains, [], 0, rank);
    if res.Ok? {
      KeysFromStart(reg, mains, KeySet(res.value));
    }
  }

  /** A key set built from no keys by the main loop holds exactly the roots' names. */
  lemma KeysFromStart(reg: Registry, mains: seq<string>, keys: set<string>)
    requires forall x :: x in keys <==> x in KeySet<string, string>([]) || MainKey(reg, mains, 0, x)
    ensures forall x :: x in keys <==>
              exists t, r :: 0 <= t < |mains| && r in CompositionsFor(reg.parents, mains[t]) &&
                             Get(reg.sheets, r).Some? && Role(r) == x
  {
    assert KeySet<string, string>([]) == {};
    forall x ensures x in keys <==>
                       exists t, r :: 0 <= t < |mains| && r in CompositionsFor(reg.parents, mains[t]) &&
                                      Get(reg.sheets, r).Some? && Role(r) == x
    {
      MainKeyFromStart(reg, mains, x);
    }
  }

  /** MainKey from the first main sheet, written out. */
  lemma MainKeyFromStart(reg: Registry, mains: seq<string>, x: string)
    ensures MainKey(reg, mains, 0, x) <==>
            exists t, r :: 0 <= t < |mains| && r in CompositionsFor(reg.parents, mains[t]) &&
                           Get(reg.sheets, r).Some? && Role(r) == x
  {
  }

  /** v is what root t of roots, from j, renders, and x is its name without '#'. */
  predicate RootRendered(reg: Registry, roots: seq<string>, j: nat, x: string, v: string, rank: string -> nat)
    requires Ranked(reg.parents, rank) && forall r :: r in roots ==> r in KeySet(reg.parents)
  {
    exists t :: j <= t < |roots| && Get(reg.sheets, roots[t]).Some? && Role(roots[t]) == x &&
                RootOf(reg, roots[t], rank) == Ok(Some(v))
  }

  /** v is what a registered composition whose parent is a main sheet from m renders, and x is
      its name without '#'. */
  predicate MainRendered(reg: Registry, mains: seq<string>, m: nat, x: string, v: string, rank: string -> nat)
    requires Ranked(reg.parents, rank)
  {
    exists t, r :: m <= t < |mains| && r in CompositionsFor(reg.parents, mains[t]) && r in KeySet(reg.parents) &&
                   Get(reg.sheets, r).Some? && Role(r) == x && RootOf(reg, r, rank) == Ok(Some(v))
  }

  /** Each value the root loop leaves was there before or is the joined updates of a root
      from j stored under that root's name. */
  lemma {:induction false} RootsValue(reg: Registry, roots: seq<string>, acc: OMap<string, string>, j: nat, rank: string -> nat, x: string)
    requires Ranked(reg.parents, rank) && forall r :: r in roots ==> r in KeySet(reg.parents)
    requires RootsFrom(reg, roots, acc, j, rank).Ok? && Get(RootsFrom(reg, roots, acc, j, rank).value, x).Some?
    ensures var v := Get(RootsFrom(reg, roots, acc, j, rank).value, x).value;
            Get(acc, x) == Some(v) || RootRendered(reg, roots, j, x, v, rank)
    decreases |roots| - j
  {
    if j < |roots| {
      var v := Get(RootsFrom(reg, roots, acc, j, rank).value, x).value;
      var out := RootOf(reg, roots[j], rank);
      assert out.Ok?;
      assert out.value.Some? ==> Get(reg.sheets, roots[j]).Some?;
      var acc' := if out.value.Some? then Put(acc, Role(roots[j]), out.value.value) else acc;
      assert RootsFrom(reg, roots, acc, j, rank) == RootsFrom(reg, roots, acc', j + 1, rank);
      RootsValue(reg, roots, acc', j + 1, rank, x);
      if Get(acc', x) == Some(v) {
        if out.value.Some? {
          GetPut(acc, Role(roots[j]), out.value.value, x);
          if x == Role(roots[j]) {
            assert RootRendered(reg, roots, j, x, v, rank);
          }
        }
      } else {
        var t :| j + 1 <= t < |roots| && Get(reg.sheets, roots[t]).Some? && Role(roots[t]) == x &&
                 RootOf(reg, roots[t], rank) == Ok(Some(v));
        assert RootRendered(reg, roots, j, x, v, rank);
      }
    }
  }

  /** Each value the main loop leaves was there before or is the joined updates of a
      registered composition whose parent is a main sheet from m, stored under its name. */
  lemma {:induction false} MainsValue(reg: Registry, mains: seq<string>, acc: OMap<string, string>, m: nat, rank: string -> nat, x: string)
    requires Ranked(reg.parents, rank)
    requires MainsFrom(reg, mains, acc, m, rank).Ok? && Get(MainsFrom(reg, mains, acc, m, rank).value, x).Some?
    ensures var v := Get(MainsFrom(reg, mains, acc, m, rank).value, x).value;
            Get(acc, x) == Some(v) || MainRendered(reg, mains, m, x, v, rank)
    decreases |mains| - m
  {
    if m < |mains| {
      var v := Get(MainsFrom(reg, mains, acc, m, rank).value, x).value;
      var roots := CompositionsFor(reg.parents, mains[m]);
      RootsRegistered(reg.parents, mains[m]);
      var acc' := RootsFrom(reg, roots, acc, 0, rank).value;
      assert MainsFrom(reg, mains, acc, m, rank) == MainsFrom(reg, mains, acc', m + 1, rank);
      MainsValue(reg, mains, acc', m + 1, rank, x);
      if Get(acc', x) == Some(v) {
        RootsValue(reg, roots, acc, 0, rank, x);
        if Get(acc, x) != Some(v) {
          var t :| 0 <= t < |roots| && Get(reg.sheets, roots[t]).Some? && Role(roots[t]) == x &&
                   RootOf(reg, roots[t], rank) == Ok(Some(v));
          assert roots[t] in roots;
          assert MainRendered(reg, mains, m, x, v, rank);
        }
      } else {
        var t, r :| m + 1 <= t < |mains| && r in CompositionsFor(reg.parents, mains[t]) && r in KeySet(reg.parents) &&
                    Get(reg.sheets, r).Some? && Role(r) == x && RootOf(reg, r, rank) == Ok(Some(v));
        assert MainRendered(reg, mains, m, x, v, rank);
      }
    }
  }

  /** Each value buildNestedCompositionsUpdateMutations returns is the joined updates of a
      registered composition whose parent is a main sheet, stored under that composition's
      name without '#'. */
  lemma ResultValues(reg: Registry, all: seq<ExcelSheetData>, rank: string -> nat, x: string)
    requires Ranked(reg.parents, rank)
    requires BuildAll(reg, all, rank).Ok? && x in KeySet(BuildAll(reg, all, rank).value)
    ensures MainRendered(reg, MainNamesFrom([], all), 0, x, Get(BuildAll(reg, all, rank).value, x).value, rank)
  {
    MainsValue(reg, MainNamesFrom([], all), [], 0, rank, x);
    assert Get<string, string>([], x) == None;
  }

  /** A registered composition whose parent is a main sheet, and which no other such
      composition shares its name without '#' with, has its joined updates stored under that
      name. */
  lemma ResultValueOf(reg: Registry, all: seq<ExcelSheetData>, rank: string -> nat, t: nat, r: string)
    requires Ranked(reg.parents, rank)
    requires var mains := MainNamesFrom([], all);
             t < |mains| && r in CompositionsFor(reg.parents, mains[t]) && Get(reg.sheets, r).Some? &&
             forall t', r' ::
               (0 <= t' < |mains| && r' in CompositionsFor(reg.parents, mains[t']) &&
                Get(reg.sheets, r').Some? && Role(r') == Role(r)) ==> r' == r
    requires BuildAll(reg, all, rank).Ok?
    ensures r in KeySet(reg.parents) && RootOf(reg, r, rank).Ok? && RootOf(reg, r, rank).value.Some?
    ensures Get(BuildAll(reg, all, rank).value, Role(r)) == Some(RootOf(reg, r, rank).value.value)
  {
    var mains := MainNamesFrom([], all);
    var res := BuildAll(reg, all, rank).value;
    RootsRegistered(reg.parents, mains[t]);
    ResultKeys(reg, all, rank);
    assert Role(r) in KeySet(res);
    ResultValues(reg, all, rank, Role(r));
    var v := Get(res, Role(r)).value;
    var t', r' :| 0 <= t' < |mains| && r' in CompositionsFor(reg.parents, mains[t']) && r' in KeySet(reg.parents) &&
                  Get(reg.sheets, r').Some? && Role(r') == Role(r) && RootOf(reg, r', rank) == Ok(Some(v));
    assert r' == r;
  }

  /** The builder: the composition sheets by name and each one's parent class, both filled
      once when the builder is made. */
  class NestedCompositionUpdateBuilder {
    const compositionSheets: OMap<string, ExcelSheetData>
    const compositionParentMap: OMap<string, string>

    function Reg(): Registry {
      Registry(compositionSheets, compositionParentMap)
    }

    constructor Of(reg: Registry)
      ensures Reg() == reg
    {
      compositionSheets := reg.sheets;
      compositionParentMap := reg.parents;
    }

    /** The Java constructor: registers every composition sheet, and throws when one has no
        first header or that header does not parse. */
    static method Create(allSheets: seq<ExcelSheetData>) returns (r: Result<NestedCompositionUpdateBuilder>)
      ensures r.Ok? <==> RegisterFrom(Registry([], []), allSheets).Ok?
      ensures r.Ok? ==> fresh(r.value) && r.value.Reg() == RegisterFrom(Registry([], []), allSheets).value
    {
      var sheets: OMap<string, ExcelSheetData> := [];
      var parents: OMap<string, string> := [];
      var k := 0;
      while k < |allSheets|
        invariant k <= |allSheets|
        invariant RegisterFrom(Registry(sheets, parents), allSheets[k..]) == RegisterFrom(Registry([], []), allSheets)
      {
        assert allSheets[k..][0] == allSheets[k] && allSheets[k..][1..] == allSheets[k + 1..];
        var sheet := allSheets[k];
        if IsCompositionName(sheet.sheetName) {
          sheets := Put(sheets, sheet.sheetName, sheet);
          if sheet.headers == [] {
            return Err(IndexOutOfBounds(0));
          }
          var parent := Parse(sheet.headers[0]);
          if parent.Err? {
            return Err(parent.failure);
          }
          parents := Put(parents, sheet.sheetName, parent.value.className);
        }
        k := k + 1;
      }
      var b := new NestedCompositionUpdateBuilder.Of(Registry(sheets, parents));
      return Ok(b);
    }

    method FindCompositionsForParent(parent: string) returns (cs: seq<string>)
      ensures cs == CompositionsFor(compositionParentMap, parent)
    {
      var entries := compositionParentMap;
      cs := [];
      var k := 0;
      while k < |entries|
        invariant k <= |entries|
        invariant cs + CompositionsFor(entries[k..], parent) == CompositionsFor(entries, parent)
      {
        CompositionsForStep(entries, parent, k);
        ghost var rest := CompositionsFor(entries[k + 1..], parent);
        if entries[k].1 == parent {
          AppendAssoc(cs, [entries[k].0], rest);
          cs := cs + [entries[k].0];
        } else {
          assert CompositionsFor(entries[k..], parent) == rest;
        }
        k := k + 1;
      }
      assert CompositionsFor(entries[k..], parent) == [];
    }

    method FormatGraphQLMap(n: Node) returns (s: string)
      ensures s == Format(n)
      decreases n, 1
    {
      match n
      case Fields(_) =>
        var sb := AppendEntries(n);
        if |sb| > 2 {
          sb := sb[..|sb| - 2];
        }
        s := sb + " }";
      case Items(_) =>
        var sb := AppendItems(n);
        if |sb| > 2 {
          sb := sb[..|sb| - 2];
        }
        s := sb + " ]";
      case Text(t) =>
        s := "\"" + t + "\"";
      case Null =>
        s := "null";
    }

    /** The entry loop of formatGraphQLMap for a map. */
    method AppendEntries(n: Node) returns (sb: string)
      requires n.Fields?
      ensures sb == "{ " + Suffixed(EntryParts(n), ", ")
      decreases n, 0
    {
      var es := n.entries;
      ghost var parts := EntryParts(n);
      sb := "{ ";
      var i := 0;
      while i < |es|
        invariant i <= |es|
        invariant sb == "{ " + Suffixed(parts[..i], ", ")
      {
        assert es[i] in es;
        var v := FormatGraphQLMap(es[i].1);
        SuffixedAppend(parts[..i], parts[i], ", ");
        assert parts[..i + 1] == parts[..i] + [parts[i]];
        sb := sb + es[i].0 + ": " + v + ", ";
        i := i + 1;
      }
      assert parts[..i] == parts;
    }

    /** The item loop of formatGraphQLMap for a list. */
    method AppendItems(n: Node) returns (sb: string)
      requires n.Items?
      ensures sb == "[ " + Suffixed(ItemParts(n), ", ")
      decreases n, 0
    {
      var xs := n.items;
      ghost var parts := ItemParts(n);
      sb := "[ ";
      var i := 0;
      while i < |xs|
        invariant i <= |xs|
        invariant sb == "[ " + Suffixed(parts[..i], ", ")
      {
        assert xs[i] in xs;
        var v := FormatGraphQLMap(xs[i]);
        SuffixedAppend(parts[..i], parts[i], ", ");
        assert parts[..i + 1] == parts[..i] + [parts[i]];
        sb := sb + v + ", ";
        i := i + 1;
      }
      assert parts[..i] == parts;
    }

    method JoinMutations(mutations: seq<string>) returns (s: string)
      ensures s == Lines(mutations)
    {
      s := "";
      var k := 0;
      while k < |mutations|
        invariant k <= |mutations|
        invariant s == Suffixed(mutations[..k], "\n")
      {
        SuffixedAppend(mutations[..k], mutations[k], "\n");
        assert mutations[..k + 1] == mutations[..k] + [mutations[k]];
        s := s + mutations[k] + "\n";
        k := k + 1;
      }
      assert mutations[..k] == mutations;
    }

    method BuildUpdateMutationString(obj: string, attr: string, value: string, role: string, attrs: OMap<string, Node>) returns (s: string)
      ensures s == UpdateMutation(obj, attr, value, role, attrs)
    {
      var create := Get(attrs, "create");
      var rendered := FormatGraphQLMap(if create.Some? then create.value else Null);
      s := "mutation { " + obj + GraphQLUpdateSuffix + "(data: { " + attr + ": \"" + value + "\", " + role +
           ": { create: " + rendered + " } }) { _id } }";
    }

    method BuildNestedComposition(name: string, pv: string, ghost rank: string -> nat) returns (r: Result<Node>)
      requires Ranked(compositionParentMap, rank) && name in KeySet(compositionParentMap)
      ensures r == Nested(Reg(), name, pv, rank)
      decreases rank(name), 3
    {
      var sheet := Get(compositionSheets, name);
      if sheet.None? {
        return Err(NullValue);
      }
      var headers := sheet.value.headers;
      var rows := sheet.value.rows;
      ghost var outs := RowObjects(Reg(), name, sheet.value, rank);
      var objects: seq<Node> := [];
      var k := 0;
      while k < |rows|
        invariant k <= |rows|
        invariant KeptFrom(objects, rows, outs, pv, k) == KeptFrom([], rows, outs, pv, 0)
      {
        var row := rows[k];
        if row == [] {
          return Err(IndexOutOfBounds(0));
        }
        if row[0] != pv {
          k := k + 1;
          continue;
        }
        var data := BuildRowData(name, headers, row, rank);
        if data.Err? {
          return Err(data.failure);
        }
        objects := objects + [Fields(data.value)];
        k := k + 1;
      }
      return Ok(Fields([("create", Items(objects))]));
    }

    /** The row-data loop shared by the root rows and the nested rows. */
    method BuildRowData(name: string, headers: seq<string>, row: seq<string>, ghost rank: string -> nat) returns (r: Result<OMap<string, Node>>)
      requires Ranked(compositionParentMap, rank) && name in KeySet(compositionParentMap)
      ensures r == ColumnsFrom(Reg(), name, headers, row, [], 1, rank)
      decreases rank(name), 1
    {
      var data: OMap<string, Node> := [];
      var i := 1;
      while i < |headers|
        invariant i >= 1
        invariant ColumnsFrom(Reg(), name, headers, row, data, i, rank) == ColumnsFrom(Reg(), name, headers, row, [], 1, rank)
        decreases |headers| - i
      {
        var header := headers[i];
        var value := if i < |row| then row[i] else "";
        var withChildren := AddChildren(name, header, value, data, rank);
        if withChildren.Err? {
          return Err(withChildren.failure);
        }
        data := Put(withChildren.value, header, Text(value));
        i := i + 1;
      }
      return Ok(data);
    }

    /** The child loop of one column: the nested create of every child composition whose
        parent header is this column's header. */
    method AddChildren(name: string, header: string, value: string, data: OMap<string, Node>, ghost rank: string -> nat)
      returns (r: Result<OMap<string, Node>>)
      requires Ranked(compositionParentMap, rank) && name in KeySet(compositionParentMap)
      ensures r == ChildrenFrom(Reg(), name, header, value, CompositionsFor(compositionParentMap, Role(name)), data, 0, rank)
      decreases rank(name), 0
    {
      var children := FindCompositionsForParent(Role(name));
      var withChildren := data;
      var j := 0;
      while j < |children|
        invariant j <= |children|
        invariant ChildrenFrom(Reg(), name, header, value, children, withChildren, j, rank) ==
                  ChildrenFrom(Reg(), name, header, value, children, data, 0, rank)
      {
        var child := children[j];
        var childSheet := Get(compositionSheets, child);
        if childSheet.Some? && header == ParentHeader(childSheet.value) {
          ChildRanked(compositionParentMap, rank, name, child);
          var nested := BuildNestedComposition(child, value, rank);
          if nested.Err? {
            return Err(nested.failure);
          }
          assert ChildrenFrom(Reg(), name, header, value, children, withChildren, j, rank) ==
                 ChildrenFrom(Reg(), name, header, value, children, Put(withChildren, Role(child), nested.value), j + 1, rank);
          withChildren := Put(withChildren, Role(child), nested.value);
        } else {
          assert ChildrenFrom(Reg(), name, header, value, children, withChildren, j, rank) ==
                 ChildrenFrom(Reg(), name, header, value, children, withChildren, j + 1, rank);
        }
        j := j + 1;
      }
      return Ok(withChildren);
    }

    /** The row loop of one root composition. */
    method BuildRootMutations(root: string, sheet: ExcelSheetData, parent: ExternalAttribute, ghost rank: string -> nat)
      returns (r: Result<seq<string>>)
      requires Ranked(compositionParentMap, rank) && root in KeySet(compositionParentMap)
      ensures r == RootRowsFrom([], sheet.rows, RowObjects(Reg(), root, sheet, rank), parent, Role(root), 0)
    {
      ghost var outs := RowObjects(Reg(), root, sheet, rank);
      var mutations: seq<string> := [];
      var k := 0;
      while k < |sheet.rows|
        invariant k <= |sheet.rows|
        invariant RootRowsFrom(mutations, sheet.rows, outs, parent, Role(root), k) ==
                  RootRowsFrom([], sheet.rows, outs, parent, Role(root), 0)
      {
        var row := sheet.rows[k];
        if row == [] {
          return Err(IndexOutOfBounds(0));
        }
        var attributes := BuildRowData(root, sheet.headers, row, rank);
        if attributes.Err? {
          return Err(attributes.failure);
        }
        var mutation := BuildUpdateMutationString(parent.className, parent.attributeName, row[0], Role(root), attributes.value);
        mutations := mutations + [mutation];
        k := k + 1;
      }
      return Ok(mutations);
    }

    method BuildNestedCompositionsUpdateMutations(allSheets: seq<ExcelSheetData>, ghost rank: string -> nat)
      returns (r: Result<OMap<string, string>>)
      requires Ranked(compositionParentMap, rank)
      ensures r == BuildAll(Reg(), allSheets, rank)
    {
      var mainNames := MainNames(allSheets);
      var result: OMap<string, string> := [];
      var m := 0;
      while m < |mainNames|
        invariant m <= |mainNames|
        invariant MainsFrom(Reg(), mainNames, result, m, rank) == MainsFrom(Reg(), mainNames, [], 0, rank)
      {
        var roots := FindCompositionsForParent(mainNames[m]);
        RootsRegistered(compositionParentMap, mainNames[m]);
        var acc := BuildRoots(roots, result, rank);
        if acc.Err? {
          return Err(acc.failure);
        }
        result := acc.value;
        m := m + 1;
      }
      return Ok(result);
    }

    /** The root loop of one main sheet: each registered root's joined updates stored under
        its name without '#'. */
    method BuildRoots(roots: seq<string>, start: OMap<string, string>, ghost rank: string -> nat)
      returns (r: Result<OMap<string, string>>)
      requires Ranked(compositionParentMap, rank) && forall x :: x in roots ==> x in KeySet(compositionParentMap)
      ensures r == RootsFrom(Reg(), roots, start, 0, rank)
    {
      var acc := start;
      var j := 0;
      while j < |roots|
        invariant j <= |roots|
        invariant RootsFrom(Reg(), roots, acc, j, rank) == RootsFrom(Reg(), roots, start, 0, rank)
      {
        var root := roots[j];
        var sheet := Get(compositionSheets, root);
        if sheet.None? {
          j := j + 1;
          continue;
        }
        var headers := sheet.value.headers;
        if headers == [] {
          return Err(IndexOutOfBounds(0));
        }
        var parent := Parse(headers[0]);
        if parent.Err? {
          return Err(parent.failure);
        }
        var mutations := BuildRootMutations(root, sheet.value, parent.value, rank);
        if mutations.Err? {
          return Err(mutations.failure);
        }
        var joined := JoinMutations(mutations.value);
        acc := Put(acc, Role(root), joined);
        j := j + 1;
      }
      return Ok(acc);
    }
  }
}
