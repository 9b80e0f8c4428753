/** src/controllers/category.controller.js: the category table, where
    deletion only clears `isActive`, so a deleted category's slug stays
    taken. */
module CategoryController {
  import opened Text
  import opened SlugRegistry

  class CategoryTable {
    var rows: seq<Entry>
    var nextId: nat

    ghost predicate Valid()
      reads this
    {
      TableOk(rows, nextId)
    }

    constructor ()
      ensures Valid() && rows == [] && nextId == 0
    {
      rows, nextId := [], 0;
    }

    method Create(slugify: string -> string, name: string) returns (r: CreateResult)
      requires Valid()
      modifies this
      ensures Valid()
      ensures (rows, r) == CreateSpec(old(rows), old(nextId), slugify, name)
      ensures nextId == if r.CreatedEntry? then old(nextId) + 1 else old(nextId)
    {
      if name == "" {
        return CreateRefused(NameRequired);
      }
      var slug := slugify(name);
      if SlugTaken(rows, slug) {
        return CreateRefused(AlreadyExists);
      }
      CreateKeepsTable(rows, nextId, slugify, name);
      var category := Entry(nextId, name, slug, true);
      rows := rows + [category];
      nextId := nextId + 1;
      return CreatedEntry(category);
    }

    method Update(slugify: string -> string, id: nat, name: string) returns (r: UpdateResult)
      requires Valid()
      modifies this
      ensures Valid() && nextId == old(nextId)
      ensures (rows, r) == UpdateSpec(old(rows), slugify, id, name)
    {
      if Trim(name) == "" {
        return UpdateRefused(NameRequired);
      }
      var slug := slugify(name);
      if SlugTakenByOther(rows, slug, id) {
        return UpdateRefused(AlreadyExists);
      }
      var at := FindId(rows, id);
      if at.None? {
        return NoSuchRecord;
      }
      UpdateKeepsTable(rows, nextId, slugify, id, name);
      var category := rows[at.value].(name := name, slug := slug);
      rows := rows[at.value := category];
      return UpdatedEntry(category);
    }

    /** `findByIdAndUpdate(id, { isActive: false })`; a missing id changes nothing. */
    method Delete(id: nat)
      requires Valid()
      modifies this
      ensures Valid() && nextId == old(nextId)
      ensures rows == SoftDelete(old(rows), id)
    {
      SoftDeleteAt(rows, id);
      SoftDeleteKeepsSlugs(rows, nextId, id, "");
      var at := FindId(rows, id);
      if at.Some? {
        rows := rows[at.value := rows[at.value].(isActive := false)];
      }
    }

    /** `getAllCategories`: the active categories by ascending name. */
    function GetAll(): (r: seq<Entry>)
      reads this
      ensures SortedByName(r)
      ensures multiset(r) == multiset(ActiveRows(rows))
      ensures forall e :: e in r <==> e in rows && e.isActive
    {
      Listing(rows)
    }
  }
}
