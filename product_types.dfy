/** src/controllers/productType.controller.js: the product-type table. It
    follows the same rules as categories, except that deletion removes the
    row, which frees its slug. */
module ProductTypeController {
  import opened Text
  import opened SlugRegistry

  class ProductTypeTable {
    var rows: seq<Entry>
    var nextId: nat

    ghost predicate Valid()
      reads this
    {
      TableOk(rows, nextId)
    }

    constructor ()
      ensures Valid() && rows == [] && nextId == 0
    {
      rows, nextId := [], 0;
    }

    method Create(slugify: string -> string, name: string) returns (r: CreateResult)
      requires Valid()
      modifies this
      ensures Valid()
      ensures (rows, r) == CreateSpec(old(rows), old(nextId), slugify, name)
      ensures nextId == if r.CreatedEntry? then old(nextId) + 1 else old(nextId)
    {
      if name == "" {
        return CreateRefused(NameRequired);
      }
      var slug := slugify(name);
      if SlugTaken(rows, slug) {
        return CreateRefused(AlreadyExists);
      }
      CreateKeepsTable(rows, nextId, slugify, name);
      var productType := Entry(nextId, name, slug, true);
      rows := rows + [productType];
      nextId := nextId + 1;
      return CreatedEntry(productType);
    }

    method Update(slugify: string -> string, id: nat, name: string) returns (r: UpdateResult)
      requires Valid()
      modifies this
      ensures Valid() && nextId == old(nextId)
      ensures (rows, r) == UpdateSpec(old(rows), slugify, id, name)
    {
      if Trim(name) == "" {
        return UpdateRefused(NameRequired);
      }
      var slug := slugify(name);
      if SlugTakenByOther(rows, slug, id) {
        return UpdateRefused(AlreadyExists);
      }
      var at := FindId(rows, id);
      if at.None? {
        return NoSuchRecord;
      }
      UpdateKeepsTable(rows, nextId, slugify, id, name);
      var productType := rows[at.value].(name := name, slug := slug);
      rows := rows[at.value := productType];
      return UpdatedEntry(productType);
    }

    /** `findByIdAndDelete(id)`; a missing id changes nothing. Afterwards the
        deleted row's slug can be created again. */
    method Delete(id: nat)
      requires Valid()
      modifies this
      ensures Valid() && nextId == old(nextId)
      ensures rows == HardDelete(old(rows), id)
      ensures forall i :: 0 <= i < |old(rows)| && old(rows)[i].id == id ==> !SlugTaken(rows, old(rows)[i].slug)
    {
      var at := FindId(rows, id);
      if at.None? {
        HardDeleteNone(rows, id);
        return;
      }
      var i := at.value;
      HardDeleteAt(rows, id, i);
      HardDeleteFreesSlug(rows, id, i);
      RemoveAtKeepsTable(rows, nextId, i);
      assert forall j :: 0 <= j < |rows| && rows[j].id == id ==> j == i;
      rows := rows[..i] + rows[i + 1..];
    }

    /** `getAllProductTypes`: the active product types by ascending name. */
    function GetAll(): (r: seq<Entry>)
      reads this
      ensures SortedByName(r)
      ensures multiset(r) == multiset(ActiveRows(rows))
      ensures forall e :: e in r <==> e in rows && e.isActive
    {
      Listing(rows)
    }
  }
}
