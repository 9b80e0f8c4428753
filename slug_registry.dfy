/** The rule shared by the category and product-type tables: records with
    a name and a slug, where a slug names at most one record. Stored rows
    are kept in insertion order; `slugify` is a function parameter. */
module SlugRegistry {
  import opened Wrappers
  import opened Text

  /** One record: its id, its display name, its slug and the soft-delete flag. */
  datatype Entry = Entry(id: nat, name: string, slug: string, isActive: bool)

  predicate IdsUnique(rows: seq<Entry>) {
    forall i, j :: 0 <= i < j < |rows| ==> rows[i].id != rows[j].id
  }

  predicate SlugsUnique(rows: seq<Entry>) {
    forall i, j :: 0 <= i < j < |rows| ==> rows[i].slug != rows[j].slug
  }

  predicate IdsBelow(rows: seq<Entry>, bound: nat) {
    forall i :: 0 <= i < |rows| ==> rows[i].id < bound
  }

  /** What each table keeps: ids are distinct and below the next id to
      hand out, and no slug is shared. */
  predicate TableOk(rows: seq<Entry>, nextId: nat) {
    IdsUnique(rows) && IdsBelow(rows, nextId) && SlugsUnique(rows)
  }

  /** `findOne({ slug })`: some record, active or not, has the slug. */
  predicate SlugTaken(rows: seq<Entry>, slug: string) {
    exists i :: 0 <= i < |rows| && rows[i].slug == slug
  }

  /** `findOne({ slug, _id: { $ne: id } })`. */
  predicate SlugTakenByOther(rows: seq<Entry>, slug: string, id: nat) {
    exists i :: 0 <= i < |rows| && rows[i].slug == slug && rows[i].id != id
  }

  /** The position of the record with the given id. */
  function FindId(rows: seq<Entry>, id: nat): (r: Option<nat>)
    ensures r.None? <==> forall i :: 0 <= i < |rows| ==> rows[i].id != id
    ensures r.Some? ==> r.value < |rows| && rows[r.value].id == id
  {
    if rows == [] then None
    else if rows[0].id == id then Some(0)
    else match FindId(rows[1..], id)
      case None => None
      case Some(i) => Some(i + 1)
  }

  /** `findOne({ slug, isActive: true })`: the id of an active record with the slug. */
  function FindActiveBySlug(rows: seq<Entry>, slug: string): (r: Option<nat>)
    ensures r.None? <==> forall i :: 0 <= i < |rows| ==> !(rows[i].slug == slug && rows[i].isActive)
    ensures r.Some? ==> exists i :: 0 <= i < |rows| && rows[i].slug == slug && rows[i].isActive && rows[i].id == r.value
  {
    if rows == [] then None
    else if rows[0].slug == slug && rows[0].isActive then Some(rows[0].id)
    else
      var r := FindActiveBySlug(rows[1..], slug);
      assert r.Some? ==> exists i :: 1 <= i < |rows| && rows[i].slug == slug && rows[i].isActive
                           && rows[i].id == r.value;
      r
  }

  datatype Refusal = NameRequired | AlreadyExists

  datatype CreateResult = CreatedEntry(entry: Entry) | CreateRefused(why: Refusal) {
    function Status(): int {
      if CreatedEntry? then 201 else 400
    }
  }

  /** `createX`: a missing name, or a slug some record already has (a
      soft-deleted one included), is refused; otherwise an active record
      `{ name, slug }` is added under the next id. */
  function CreateSpec(rows: seq<Entry>, nextId: nat, slugify: string -> string, name: string)
    : (r: (seq<Entry>, CreateResult))
    ensures r.1 == CreateRefused(NameRequired) <==> name == ""
    ensures r.1 == CreateRefused(AlreadyExists) <==> name != "" && SlugTaken(rows, slugify(name))
    ensures r.1.CreateRefused? ==> r.0 == rows
    ensures r.1.CreatedEntry? ==>
      r.1.entry == Entry(nextId, name, slugify(name), true) && r.0 == rows + [r.1.entry]
  {
    if name == "" then (rows, CreateRefused(NameRequired))
    else if SlugTaken(rows, slugify(name)) then (rows, CreateRefused(AlreadyExists))
    else
      var e := Entry(nextId, name, slugify(name), true);
      (rows + [e], CreatedEntry(e))
  }

  /** `res.json(record)`, where the record is null when no id matched. */
  datatype UpdateResult = UpdatedEntry(entry: Entry) | NoSuchRecord | UpdateRefused(why: Refusal) {
    function Status(): int {
      if UpdateRefused? then 400 else 200
    }
  }

  /** `updateX`: a blank name is refused, as is a slug another record holds;
      the slug check comes before the lookup, and a missing id answers 200
      with null. The stored name is the untrimmed one. */
  function UpdateSpec(rows: seq<Entry>, slugify: string -> string, id: nat, name: string)
    : (r: (seq<Entry>, UpdateResult))
    ensures r.1 == UpdateRefused(NameRequired) <==> IsBlank(name)
    ensures r.1 == UpdateRefused(AlreadyExists) <==> !IsBlank(name) && SlugTakenByOther(rows, slugify(name), id)
    ensures r.1 == NoSuchRecord <==>
      !IsBlank(name) && !SlugTakenByOther(rows, slugify(name), id) && FindId(rows, id).None?
    ensures !r.1.UpdatedEntry? ==> r.0 == rows
    ensures r.1.UpdatedEntry? ==>
      var i := FindId(rows, id).value;
      && r.1.entry == rows[i].(name := name, slug := slugify(name))
      && r.0 == rows[i := r.1.entry]
  {
    if IsBlank(name) then (rows, UpdateRefused(NameRequired))
    else if SlugTakenByOther(rows, slugify(name), id) then (rows, UpdateRefused(AlreadyExists))
    else match FindId(rows, id)
      case None => (rows, NoSuchRecord)
      case Some(i) =>
        var e := rows[i].(name := name, slug := slugify(name));
        (rows[i := e], UpdatedEntry(e))
  }

  /** `deleteCategory`: `findByIdAndUpdate(id, { isActive: false })`. */
  function SoftDelete(rows: seq<Entry>, id: nat): (r: seq<Entry>)
    ensures |r| == |rows|
    ensures forall i :: 0 <= i < |rows| ==>
      r[i] == (if rows[i].id == id then rows[i].(isActive := false) else rows[i])
  {
    if rows == [] then []
    else [if rows[0].id == id then rows[0].(isActive := false) else rows[0]] + SoftDelete(rows[1..], id)
  }

  /** `deleteProductType`: `findByIdAndDelete(id)`. */
  function HardDelete(rows: seq<Entry>, id: nat): (r: seq<Entry>)
    ensures forall e :: e in r <==> e in rows && e.id != id
    ensures |r| <= |rows|
  {
    if rows == [] then []
    else (if rows[0].id == id then [] else [rows[0]]) + HardDelete(rows[1..], id)
  }

  /** With distinct ids, soft deletion touches at most the one matching row. */
  lemma SoftDeleteAt(rows: seq<Entry>, id: nat)
    requires IdsUnique(rows)
    ensures FindId(rows, id).None? ==> SoftDelete(rows, id) == rows
    ensures FindId(rows, id).Some? ==>
      var i := FindId(rows, id).value;
      SoftDelete(rows, id) == rows[i := rows[i].(isActive := false)]
  {
    var r := SoftDelete(rows, id);
    match FindId(rows, id)
    case None =>
      assert forall k :: 0 <= k < |rows| ==> r[k] == rows[k];
    case Some(i) =>
      var t := rows[i := rows[i].(isActive := false)];
      forall k | 0 <= k < |rows|
        ensures r[k] == t[k]
      {
        if k != i {
          assert rows[k].id != id;
        }
      }
  }

  /** Hard deletion of an id no row has changes nothing. */
  lemma {:induction false} HardDeleteNone(rows: seq<Entry>, id: nat)
    requires forall k :: 0 <= k < |rows| ==> rows[k].id != id
    ensures HardDelete(rows, id) == rows
  {
    if rows != [] {
      HardDeleteNone(rows[1..], id);
      assert rows == [rows[0]] + rows[1..];
    }
  }

  /** Hard deletion works on each part of a table separately. */
  lemma {:induction false} HardDeleteConcat(a: seq<Entry>, b: seq<Entry>, id: nat)
    ensures HardDelete(a + b, id) == HardDelete(a, id) + HardDelete(b, id)
  {
    if a == [] {
      assert a + b == b;
    } else {
      assert (a + b)[1..] == a[1..] + b;
      HardDeleteConcat(a[1..], b, id);
    }
  }

  /** With distinct ids, hard deletion cuts out exactly the matching row. */
  lemma HardDeleteAt(rows: seq<Entry>, id: nat, i: nat)
    requires IdsUnique(rows) && i < |rows| && rows[i].id == id
    ensures HardDelete(rows, id) == rows[..i] + rows[i + 1..]
  {
    var pre, post := rows[..i], rows[i + 1..];
    assert rows == pre + [rows[i]] + post;
    assert forall k :: 0 <= k < |pre| ==> pre[k] == rows[k];
    HardDeleteNone(pre, id);
    assert forall k :: 0 <= k < |post| ==> post[k] == rows[i + 1 + k];
    HardDeleteNone(post, id);
    assert HardDelete([rows[i]], id) == [] by {
      assert [rows[i]][1..] == [];
    }
    calc {
      HardDelete(rows, id);
      HardDelete(pre + [rows[i]] + post, id);
      { HardDeleteConcat(pre + [rows[i]], post, id); }
      HardDelete(pre + [rows[i]], id) + HardDelete(post, id);
      { HardDeleteConcat(pre, [rows[i]], id); }
      HardDelete(pre, id) + HardDelete([rows[i]], id) + HardDelete(post, id);
      pre + [] + post;
      { assert pre + [] == pre; }
      pre + post;
    }
  }

  /** Cutting one row out of a table keeps its invariant. */
  lemma RemoveAtKeepsTable(rows: seq<Entry>, nextId: nat, i: nat)
    requires TableOk(rows, nextId) && i < |rows|
    ensures TableOk(rows[..i] + rows[i + 1..], nextId)
  {
    var r := rows[..i] + rows[i + 1..];
    assert forall k :: 0 <= k < |r| ==> r[k] == rows[if k < i then k else k + 1];
  }

  /** Creating keeps the table's invariant: the new id is fresh and the
      slug was checked to be free. */
  lemma CreateKeepsTable(rows: seq<Entry>, nextId: nat, slugify: string -> string, name: string)
    requires TableOk(rows, nextId)
    ensures TableOk(CreateSpec(rows, nextId, slugify, name).0, nextId + 1)
  {
  }

  /** Updating keeps the table's invariant: ids are untouched and a slug
      held by another record is refused. */
  lemma UpdateKeepsTable(rows: seq<Entry>, nextId: nat, slugify: string -> string, id: nat, name: string)
    requires TableOk(rows, nextId)
    ensures TableOk(UpdateSpec(rows, slugify, id, name).0, nextId)
  {
    var r := UpdateSpec(rows, slugify, id, name);
    if r.1.UpdatedEntry? {
      var i := FindId(rows, id).value;
      forall j | 0 <= j < |rows| && j != i
        ensures rows[j].id != id
      {
      }
    }
  }

  /** Soft deletion keeps the invariant and keeps every slug taken, so a
      soft-deleted name cannot be created again. */
  lemma SoftDeleteKeepsSlugs(rows: seq<Entry>, nextId: nat, id: nat, slug: string)
    requires TableOk(rows, nextId)
    ensures TableOk(SoftDelete(rows, id), nextId)
    ensures SlugTaken(SoftDelete(rows, id), slug) <==> SlugTaken(rows, slug)
  {
    var r := SoftDelete(rows, id);
    if SlugTaken(rows, slug) {
      var i :| 0 <= i < |rows| && rows[i].slug == slug;
      assert r[i].slug == slug;
    }
    if SlugTaken(r, slug) {
      var i :| 0 <= i < |r| && r[i].slug == slug;
      assert rows[i].slug == slug;
    }
  }

  /** Hard deletion frees the deleted record's slug: in a table where the
      slug was unique, nothing holds it afterwards and the same name can be
      created again. */
  lemma {:induction false} HardDeleteFreesSlug(rows: seq<Entry>, id: nat, i: nat)
    requires SlugsUnique(rows) && IdsUnique(rows) && i < |rows| && rows[i].id == id
    ensures !SlugTaken(HardDelete(rows, id), rows[i].slug)
  {
    var r := HardDelete(rows, id);
    forall k | 0 <= k < |r|
      ensures r[k].slug != rows[i].slug
    {
      assert r[k] in rows && r[k].id != id;
      var j :| 0 <= j < |rows| && rows[j] == r[k];
      assert j != i;
    }
  }

  /** Sorted by name, ascending, as Mongo compares strings. */
  predicate SortedByName(s: seq<Entry>) {
    forall i :: 0 <= i < |s| - 1 ==> NameLe(s[i].name, s[i + 1].name)
  }

  function InsertByName(e: Entry, s: seq<Entry>): seq<Entry> {
    if s == [] then [e]
    else if NameLe(e.name, s[0].name) then [e] + s
    else [s[0]] + InsertByName(e, s[1..])
  }

  /** Insertion adds exactly the one record. */
  lemma {:induction false} InsertByNameContents(e: Entry, s: seq<Entry>)
    ensures |InsertByName(e, s)| == |s| + 1
    ensures multiset(InsertByName(e, s)) == multiset(s) + multiset{e}
  {
    if s != [] && !NameLe(e.name, s[0].name) {
      InsertByNameContents(e, s[1..]);
      assert s == [s[0]] + s[1..];
    }
  }

  /** Insertion into a sorted list keeps it sorted. */
  lemma {:induction false} InsertByNameSorted(e: Entry, s: seq<Entry>)
    requires SortedByName(s)
    ensures InsertByName(e, s) != []
    ensures InsertByName(e, s)[0] == e || (s != [] && InsertByName(e, s)[0] == s[0])
    ensures SortedByName(InsertByName(e, s))
  {
    if s == [] {
    } else if NameLe(e.name, s[0].name) {
      InsertStepSorted(e, s);
    } else {
      NameLeTotal(e.name, s[0].name);
      var rest := InsertByName(e, s[1..]);
      InsertByNameSorted(e, s[1..]);
      assert NameLe(s[0].name, rest[0].name);
      InsertStepSorted(s[0], rest);
    }
  }

  lemma InsertStepSorted(x: Entry, rest: seq<Entry>)
    requires rest != [] && SortedByName(rest) && NameLe(x.name, rest[0].name)
    ensures SortedByName([x] + rest)
  {
    var r := [x] + rest;
    forall i | 0 <= i < |r| - 1
      ensures NameLe(r[i].name, r[i + 1].name)
    {
      if i > 0 {
        assert r[i] == rest[i - 1] && r[i + 1] == rest[i];
      }
    }
  }

  /** Insertion sort by name; equal names keep their stored order. */
  function SortByName(s: seq<Entry>): (r: seq<Entry>)
    ensures SortedByName(r) && multiset(r) == multiset(s)
  {
    if s == [] then []
    else
      var rest := SortByName(s[1..]);
      InsertByNameSorted(s[0], rest);
      InsertByNameContents(s[0], rest);
      assert s == [s[0]] + s[1..];
      InsertByName(s[0], rest)
  }

  function ActiveRows(rows: seq<Entry>): (r: seq<Entry>)
    ensures forall e :: e in r <==> e in rows && e.isActive
  {
    if rows == [] then []
    else (if rows[0].isActive then [rows[0]] else []) + ActiveRows(rows[1..])
  }

  /** `find({ isActive: true }).sort({ name: 1 })`: every active record,
      once, and nothing else, in ascending name order. */
  function Listing(rows: seq<Entry>): (r: seq<Entry>)
    ensures SortedByName(r)
    ensures multiset(r) == multiset(ActiveRows(rows))
    ensures forall e :: e in r <==> e in rows && e.isActive
  {
    var r := SortByName(ActiveRows(rows));
    assert forall e :: e in r <==> e in multiset(r);
    r
  }
}
