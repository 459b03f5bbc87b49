/** graphql.model.DataRow, DataSheet and DataFile: the sheets of a workbook as the parsers see
    them. */
module DataModel {
  import opened Wrappers
  import opened Strings
  import opened OrderedMaps
  import opened Constants
  import opened Headers
  import opened DataCells

  /** The (header, cell) entries the DataRow constructor puts, in cell order. */
  function Entries(cells: seq<DataCell>): (es: OMap<Header, DataCell>)
    ensures |es| == |cells| && forall i :: 0 <= i < |cells| ==> es[i] == (cells[i].header, cells[i])
  {
    seq(|cells|, i requires 0 <= i < |cells| => (cells[i].header, cells[i]))
  }

  /** A row of cells, with the header-to-cell index the constructor builds. Headers compare by
      identity, so two columns whose header texts are equal stay apart. */
  class DataRow {
    const cells: seq<DataCell>
    const header2cell: OMap<Header, DataCell>

    ghost predicate Valid() {
      header2cell == PutAll([], Entries(cells))
    }

    /** Keeps the list and puts every cell under its header, in list order. */
    constructor(cells: seq<DataCell>)
      ensures this.cells == cells && Valid()
    {
      var es := Entries(cells);
      var m: OMap<Header, DataCell> := [];
      var i := 0;
      while i < |es|
        invariant 0 <= i <= |es|
        invariant PutAll(m, es[i..]) == PutAll([], es)
      {
        assert es[i..][0] == es[i] && es[i..][1..] == es[i + 1..];
        m := Put(m, es[i].0, es[i].1);
        i := i + 1;
      }
      assert es[i..] == [];
      this.cells := cells;
      header2cell := m;
    }

    /** get(header): the last cell of the list whose header is that object, or None. */
    function Get(h: Header): (r: Option<DataCell>)
      requires Valid()
      ensures r.None? <==> forall i :: 0 <= i < |cells| ==> cells[i].header != h
      ensures r.Some? ==> exists i :: 0 <= i < |cells| && cells[i] == r.value && cells[i].header == h &&
                            forall j :: i < j < |cells| ==> cells[j].header != h
    {
      var es := Entries(cells);
      PutAllGet([], es, h);
      if h in KeySet(es) then
        LastValueIsLast(es, h);
        OrderedMaps.Get(header2cell, h)
      else
        assert forall i :: 0 <= i < |cells| ==> cells[i].header != h by {
          forall i | 0 <= i < |cells| ensures cells[i].header != h {
            assert es[i].0 == cells[i].header;
          }
        }
        OrderedMaps.Get(header2cell, h)
    }

    /** The index holds one entry per distinct header of the cells, and no other key. */
    lemma KeysAreHeaders()
      requires Valid()
      ensures KeySet(header2cell) == set i | 0 <= i < |cells| :: cells[i].header
      ensures DistinctKeys(header2cell)
    {
      var es := Entries(cells);
      if cells != [] {
        PutAllGet([], es, cells[0].header);
      }
      PutAllDistinct([], es);
      assert KeySet(es) == set i | 0 <= i < |cells| :: cells[i].header by {
        forall x | x in KeySet(es) ensures x in set i | 0 <= i < |cells| :: cells[i].header {
          var i :| 0 <= i < |es| && es[i].0 == x;
        }
        forall x | x in set i | 0 <= i < |cells| :: cells[i].header ensures x in KeySet(es) {
          var i :| 0 <= i < |cells| && cells[i].header == x;
          assert es[i].0 == x;
        }
      }
    }
  }

  /** A sheet: its name, its header objects and its rows. */
  datatype DataSheet = DataSheet(name: string, headers: seq<Header>, dataRows: seq<DataRow>)
  {
    /** isComposition: the name starts with the composition prefix `#`. */
    predicate IsComposition() {
      StartsWith(name, [CompositionPrefix])
    }

    /** getRoleName: the name with every `#` removed. */
    function RoleName(): (r: string)
      ensures CompositionPrefix !in r
      ensures forall d :: d != CompositionPrefix ==> (d in r <==> d in name)
    {
      DeleteCharMembers(name, CompositionPrefix);
      DeleteChar(name, CompositionPrefix)
    }
  }

  /** "#Employee" is a composition sheet whose role name is "Employee"; a name without `#` is
      not a composition and keeps its name as role name. */
  lemma {:induction false} CompositionRoleName(n: string, hs: seq<Header>, rs: seq<DataRow>)
    requires CompositionPrefix !in n
    ensures DataSheet([CompositionPrefix] + n, hs, rs).IsComposition()
    ensures DataSheet([CompositionPrefix] + n, hs, rs).RoleName() == n
    ensures !DataSheet(n, hs, rs).IsComposition() && DataSheet(n, hs, rs).RoleName() == n
  {
    DeleteCharAbsent(n, CompositionPrefix);
    assert ([CompositionPrefix] + n)[1..] == n;
  }

  lemma {:induction false} DeleteCharAbsent(s: string, c: char)
    requires c !in s
    ensures DeleteChar(s, c) == s
  {
    if s != [] {
      DeleteCharAbsent(s[1..], c);
      assert s == [s[0]] + s[1..];
    }
  }

  /** equalsIgnoreCase, with ASCII case folding. */
  predicate EqualsIgnoreCase(a: string, b: string) {
    ToLower(a) == ToLower(b)
  }

  predicate IsMappingName(name: string) {
    EqualsIgnoreCase(name, MappingSheetName)
  }

  /** The positions holding true, in increasing order. */
  function Positions(flags: seq<bool>): (ps: seq<nat>)
    ensures forall k :: 0 <= k < |ps| ==> ps[k] < |flags| && flags[ps[k]]
    ensures forall k, l :: 0 <= k < l < |ps| ==> ps[k] < ps[l]
    ensures forall i :: 0 <= i < |flags| && flags[i] ==> i in ps
  {
    if flags == [] then []
    else
      var n := |flags| - 1;
      var front := Positions(flags[..n]);
      assert forall i :: 0 <= i < n ==> flags[i] == flags[..n][i];
      front + (if flags[n] then [n] else [])
  }

  /** The positions of the sheets whose name is the mapping sheet name, ignoring case. */
  function MappingPositions(sheets: seq<DataSheet>): (ps: seq<nat>)
    ensures forall k :: 0 <= k < |ps| ==> ps[k] < |sheets| && IsMappingName(sheets[ps[k]].name)
    ensures forall k, l :: 0 <= k < l < |ps| ==> ps[k] < ps[l]
    ensures forall i :: 0 <= i < |sheets| && IsMappingName(sheets[i].name) ==> i in ps
  {
    Positions(seq(|sheets|, i requires 0 <= i < |sheets| => IsMappingName(sheets[i].name)))
  }

  /** The workbook: its sheet list, which the reader edits in place. */
  class DataFile {
    var dataSheets: seq<DataSheet>

    constructor(dataSheets: seq<DataSheet>)
      ensures this.dataSheets == dataSheets
    {
      this.dataSheets := dataSheets;
    }

    /** mappingSheet: the position of the one sheet named `_mapping` ignoring case; None when
        there is no such sheet or more than one. */
    function MappingSheet(): (r: Option<nat>)
      reads this
      ensures r.Some? ==> r.value < |dataSheets| && IsMappingName(dataSheets[r.value].name)
                          && forall i :: 0 <= i < |dataSheets| && i != r.value ==> !IsMappingName(dataSheets[i].name)
      ensures r.None? <==> (forall i :: 0 <= i < |dataSheets| ==> !IsMappingName(dataSheets[i].name))
                           || exists i, j :: 0 <= i < j < |dataSheets| && IsMappingName(dataSheets[i].name) && IsMappingName(dataSheets[j].name)
    {
      var ps := MappingPositions(dataSheets);
      MappingOne(dataSheets);
      MappingNotOne(dataSheets);
      if |ps| == 1 then Some(ps[0]) else None
    }
  }

  /** One mapping position: that sheet is the only one named `_mapping`. */
  lemma MappingOne(sheets: seq<DataSheet>)
    ensures var ps := MappingPositions(sheets);
            |ps| == 1 ==>
              ps[0] < |sheets| && IsMappingName(sheets[ps[0]].name) &&
              (forall i :: 0 <= i < |sheets| && i != ps[0] ==> !IsMappingName(sheets[i].name)) &&
              !(exists i, j :: 0 <= i < j < |sheets| && IsMappingName(sheets[i].name) && IsMappingName(sheets[j].name))
  {
  }

  /** No mapping position, or two or more: no sheet is named `_mapping`, or two are. */
  lemma MappingNotOne(sheets: seq<DataSheet>)
    ensures var ps := MappingPositions(sheets);
            |ps| != 1 ==>
              (forall i :: 0 <= i < |sheets| ==> !IsMappingName(sheets[i].name)) ||
              exists i, j :: 0 <= i < j < |sheets| && IsMappingName(sheets[i].name) && IsMappingName(sheets[j].name)
  {
    var ps := MappingPositions(sheets);
    if |ps| >= 2 {
      assert IsMappingName(sheets[ps[0]].name) && IsMappingName(sheets[ps[1]].name) && ps[0] < ps[1];
    }
  }
}
