/** Artists and labels: `BaseService` and the two tables with unique name and sort name. */
module Catalog {
  import opened Prelude
  import opened JsonText
  import opened Keyset

  type Id = nat

  datatype Integrations = Integrations(discogs: Option<int>)

  /** A row of `artists`; label rows are the ones without integrations. */
  datatype Named = Named(id: Id, name: Text, sortName: Text, integrations: Option<Integrations>)

  type Table = map<Id, Named>

  /** UUID text: an identifier may or may not parse, and what was printed parses. */
  datatype UuidFormat = UuidFormat(parse: Text -> Option<Id>, print_: Id -> Text) {
    ghost predicate Valid() {
      forall id: Id :: parse(print_(id)) == Some(id)
    }
  }

  ghost predicate WellFormed(t: Table) {
    && (forall id :: id in t ==> t[id].id == id)
    && (forall a, b :: a in t && b in t && t[a].name == t[b].name ==> a == b)
    && (forall a, b :: a in t && b in t && t[a].sortName == t[b].sortName ==> a == b)
  }

  // ---- Inserting ----

  datatype Constraint = UniqueName | UniqueSortName

  function Violated(t: Table, item: Named): set<Constraint> {
    (if exists id :: id in t && t[id].name == item.name then {UniqueName} else {})
    + (if exists id :: id in t && t[id].sortName == item.sortName then {UniqueSortName} else {})
  }

  function Insert(t: Table, item: Named): (t': Table)
    requires item.id !in t
    ensures WellFormed(t) ==> WellFormed(t')
    ensures forall id :: id in t ==> id in t' && t'[id] == t[id]
    ensures t' == if Violated(t, item) == {} then t[item.id := item] else t
  {
    if Violated(t, item) == {} then
      assert UniqueName !in Violated(t, item) && UniqueSortName !in Violated(t, item);
      t[item.id := item]
    else t
  }

  /** `attribute` and `value` fill the message "with {attribute} {value} already exists". */
  datatype Conflict = Conflict(code: string, attribute: string, value: Text)

  // ---- Looking up ----

  function Find(t: Table, format: UuidFormat, identifier: Text): set<Named> {
    match format.parse(identifier)
    case Some(id) => set r | r in t.Values && r.id == id
    case None => set r | r in t.Values && r.name == identifier
  }

  lemma FindAtMostOne(t: Table, format: UuidFormat, identifier: Text)
    requires WellFormed(t)
    ensures |Find(t, format, identifier)| <= 1
  {
    var found := Find(t, format, identifier);
    forall a, b | a in found && b in found
      ensures a == b
    {
      assert t[a.id] == a && t[b.id] == b;
    }
    if found != {} {
      var one :| one in found;
      assert found == {one};
    }
  }

  /** A stored row is found by its id always, and by its name exactly when the name does
      not read as the UUID of something else. */
  lemma FindStored(t: Table, format: UuidFormat, id: Id)
    requires WellFormed(t) && format.Valid() && id in t
    ensures Find(t, format, format.print_(id)) == {t[id]}
    ensures Find(t, format, t[id].name) == {t[id]} <==> format.parse(t[id].name) in {None, Some(id)}
  {
    assert t[id] in t.Values;
    forall r | r in t.Values
      ensures r.id in t && t[r.id] == r
    {
    }
    if format.parse(t[id].name) == None {
      assert Find(t, format, t[id].name) == {t[id]};
    } else if format.parse(t[id].name) != Some(id) {
      assert t[id] !in Find(t, format, t[id].name);
    }
  }

  /** What an identifier finds, whether it is anybody's or nobody's: by id alone when it parses,
      by name alone when it does not. */
  lemma FindExactly(t: Table, format: UuidFormat, identifier: Text)
    requires WellFormed(t)
    ensures forall id: Id :: format.parse(identifier) == Some(id) ==>
              Find(t, format, identifier) == if id in t then {t[id]} else {}
    ensures format.parse(identifier) == None ==>
              && (forall r :: r in Find(t, format, identifier) ==> r in t.Values && r.name == identifier)
              && (Find(t, format, identifier) == {} <==> forall id :: id in t ==> t[id].name != identifier)
  {
    if format.parse(identifier).Some? {
      var id := format.parse(identifier).value;
      forall r | r in t.Values
        ensures r.id == id <==> id in t && r == t[id]
      {
      }
      if id in t {
        assert t[id] in t.Values;
      }
    } else {
      forall id | id in t && t[id].name == identifier
        ensures t[id] in Find(t, format, identifier)
      {
        assert t[id] in t.Values;
      }
    }
  }

  // ---- The service ----

  datatype Lookup = NoRow | OneRow(row: Named) | MultipleRows

  function BySortName(lt: (Text, Text) -> bool): Index<Named> {
    Index((r: Named) => r.sortName, lt)
  }

  lemma SortNamesUnique(t: Table, lt: (Text, Text) -> bool)
    requires WellFormed(t)
    ensures BySortName(lt).UniqueKeys(t.Values)
  {
  }

  class BaseService {
    var rows: Table
    const lt: (Text, Text) -> bool
    const conflictCode: string

    ghost predicate Valid()
      reads this
    {
      WellFormed(rows)
    }

    constructor (lt: (Text, Text) -> bool, conflictCode: string)
      ensures Valid() && rows == map[] && this.lt == lt && this.conflictCode == conflictCode
    {
      this.rows, this.lt, this.conflictCode := map[], lt, conflictCode;
    }

    /** `item.id` is the fresh id the database generates; `reported` is the constraint the
        database names when it refuses. */
    method CreateItem(item: Named, reported: Constraint) returns (r: Result<Named, Conflict>)
      requires Valid() && item.id !in rows
      requires Violated(rows, item) != {} ==> reported in Violated(rows, item)
      modifies this
      ensures Valid()
      ensures r.Ok? <==> forall id :: id in old(rows) ==>
                old(rows)[id].name != item.name && old(rows)[id].sortName != item.sortName
      ensures r.Ok? ==> r.value == item && rows == old(rows)[item.id := item]
      ensures r.Err? ==> rows == old(rows) && r.error.code == conflictCode
      ensures r.Err? && r.error.attribute == "name" ==>
                r.error.value == item.name && exists id :: id in rows && rows[id].name == item.name
      ensures r.Err? && r.error.attribute != "name" ==>
                && r.error.attribute == "sortName" && r.error.value == item.sortName
                && exists id :: id in rows && rows[id].sortName == item.sortName
    {
      if Violated(rows, item) == {} {
        assert UniqueName !in Violated(rows, item) && UniqueSortName !in Violated(rows, item);
        rows := rows[item.id := item];
        return Ok(item);
      }
      return Err(match reported
                 case UniqueSortName => Conflict(conflictCode, "sortName", item.sortName)
                 case UniqueName => Conflict(conflictCode, "name", item.name));
    }

    /** Ends in `one_or_none`, which would raise on several rows: it never gets them. */
    method GetBy(format: UuidFormat, identifier: Text) returns (r: Lookup)
      requires Valid()
      ensures match r
              case NoRow => Find(rows, format, identifier) == {}
              case OneRow(row) => Find(rows, format, identifier) == {row}
              case MultipleRows => false
      ensures forall id: Id :: format.parse(identifier) == Some(id) ==>
                r == if id in rows then OneRow(rows[id]) else NoRow
      ensures format.parse(identifier) == None ==>
                && (r.OneRow? ==> r.row in rows.Values && r.row.name == identifier)
                && (r.NoRow? <==> forall id :: id in rows ==> rows[id].name != identifier)
    {
      var found := Find(rows, format, identifier);
      FindAtMostOne(rows, format, identifier);
      FindExactly(rows, format, identifier);
      if found == {} {
        return NoRow;
      }
      if |found| > 1 {
        return MultipleRows;
      }
      var row :| row in found;
      assert |found - {row}| == |found| - 1;
      return OneRow(row);
    }

    /** `ans` is the database's answer to the query. */
    method List(limit: int, lastCursor: Option<Text>, ans: seq<Named>) returns (r: Outcome<Named>)
      requires limit >= -1 ==> Answers(BySortName(lt), rows.Values, lastCursor, limit + 1, ans)
      ensures r == Cut(BySortName(lt), limit, ans)
      ensures limit >= 1 ==> r.Listed? && IsPage(BySortName(lt), rows.Values, lastCursor, limit, r.page)
    {
      if limit + 1 < 0 {
        return QueryError;
      }
      var items := ans;
      if |items| == limit + 1 {
        items := if limit < 0 then [] else items[..limit];
        if items == [] {
          return IndexError;
        }
        return Listed(Page(items, Some(items[|items| - 1].sortName)));
      }
      return Listed(Page(items, None));
    }
  }
}
