/** The customer record as src/controllers/user.controller.js changes it:
    the profile fields and the embedded address book, whose entries the
    handlers edit in place, plus the saved-products list that
    `toggleSavedProduct` in src/controllers/product.controller.js flips.
    The user model file itself is not part of this model. */
module UserAccounts {
  import opened Wrappers
  import opened Text

  /** The six fields an address must carry. */
  datatype AddressFields = AddressFields(
    fullName: string, phone: string, street: string, city: string, state: string, pincode: string)

  datatype Address = Address(id: nat, fields: AddressFields, isDefault: bool)

  /** `/^[6-9]\d{9}$/`: ten digits, the first one 6 to 9. */
  predicate IsValidPhone(s: string) {
    |s| == 10 && '6' <= s[0] <= '9' && IsDigits(s)
  }

  /** `/^\d{6}$/`. */
  predicate IsValidPincode(s: string) {
    |s| == 6 && IsDigits(s)
  }

  /** As numbers, the valid phone numbers are exactly the ten-digit strings
      from 6000000000 up. */
  lemma PhoneRange(s: string)
    ensures IsValidPhone(s) <==> |s| == 10 && IsDigits(s) && 6000000000 <= DecimalValue(s)
  {
    if |s| == 10 && IsDigits(s) {
      DecimalLeading(s);
      DecimalBelow(s[1..]);
      assert Pow10(9) == 1000000000;
    }
  }

  /** Every number below a million, zero-padded to six digits, is a valid
      pincode that reads back as the same number. */
  lemma PincodeOfNumber(n: nat)
    requires n < 1000000
    ensures IsValidPincode(PadStart(NatToDecimal(n), 6, '0'))
    ensures DecimalValue(PadStart(NatToDecimal(n), 6, '0')) == n
  {
    assert Pow10(6) == 1000000;
    DecimalLength(n, 6);
    PaddedDecimalValue(n, 6);
  }

  predicate AllPresent(f: AddressFields) {
    f.fullName != "" && f.phone != "" && f.street != "" && f.city != "" && f.state != "" && f.pincode != ""
  }

  datatype AddressError = FieldsRequired | InvalidPhone | InvalidPincode | AddressNotFound {
    function Status(): int {
      if AddressNotFound? then 404 else 400
    }
  }

  /** The validation `addAddress` and `updateAddress` make on the body, in order. */
  function AddressCheck(f: AddressFields): (r: Option<AddressError>)
    ensures r == Some(FieldsRequired) <==> !AllPresent(f)
    ensures r == Some(InvalidPhone) <==> AllPresent(f) && !IsValidPhone(f.phone)
    ensures r == Some(InvalidPincode) <==> AllPresent(f) && IsValidPhone(f.phone) && !IsValidPincode(f.pincode)
    ensures r.None? <==> AllPresent(f) && IsValidPhone(f.phone) && IsValidPincode(f.pincode)
  {
    if !AllPresent(f) then Some(FieldsRequired)
    else if !IsValidPhone(f.phone) then Some(InvalidPhone)
    else if !IsValidPincode(f.pincode) then Some(InvalidPincode)
    else None
  }

  datatype ProfileError = InvalidName | InvalidPhoneNumber

  /** `updateProfile`'s checks: a name whose trimmed `length` is at least
      2, counted in UTF-16 code units, and a phone that is either absent or
      valid. */
  function ProfileCheck(name: string, phone: string): (r: Option<ProfileError>)
    ensures r == Some(InvalidName) <==> Utf16Length(Trim(name)) < 2
    ensures r == Some(InvalidPhoneNumber) <==> Utf16Length(Trim(name)) >= 2 && phone != "" && !IsValidPhone(phone)
    ensures r.None? <==> Utf16Length(Trim(name)) >= 2 && (phone == "" || IsValidPhone(phone))
  {
    var trimmed := Trim(name);
    assert name == "" ==> |trimmed| == 0;
    if name == "" || Utf16Length(trimmed) < 2 then Some(InvalidName)
    else if phone != "" && !IsValidPhone(phone) then Some(InvalidPhoneNumber)
    else None
  }

  /** A name of one character outside the Basic Multilingual Plane, such
      as an emoji, has `length` 2 and is accepted, while a name of one
      character inside it is refused. */
  lemma {:induction false} OneCharacterNames(c: char)
    requires !IsJsSpace(c)
    ensures ProfileCheck([c], "") == if c > '\U{FFFF}' then None else Some(InvalidName)
  {
    assert TrimStart([c]) == [c] && TrimEnd([c]) == [c];
    assert [c][1..] == [];
    assert Utf16Length(Trim([c])) == if c > '\U{FFFF}' then 2 else 1;
  }

  predicate AddressIdsUnique(a: seq<Address>) {
    forall i, j :: 0 <= i < j < |a| ==> a[i].id != a[j].id
  }

  predicate AddressIdsBelow(a: seq<Address>, bound: nat) {
    forall i :: 0 <= i < |a| ==> a[i].id < bound
  }

  predicate AtMostOneDefault(a: seq<Address>) {
    forall i, j :: 0 <= i < j < |a| && a[i].isDefault ==> !a[j].isDefault
  }

  predicate HasDefault(a: seq<Address>) {
    exists i :: 0 <= i < |a| && a[i].isDefault
  }

  /** The rule the handlers keep: a non-empty address book has exactly one
      default address. */
  predicate DefaultRule(a: seq<Address>) {
    AtMostOneDefault(a) && (a != [] ==> HasDefault(a))
  }

  /** `user.addresses.id(addressId)`. */
  function FindAddress(a: seq<Address>, id: nat): (r: Option<nat>)
    ensures r.None? <==> forall i :: 0 <= i < |a| ==> a[i].id != id
    ensures r.Some? ==> r.value < |a| && a[r.value].id == id
  {
    if a == [] then None
    else if a[0].id == id then Some(0)
    else match FindAddress(a[1..], id)
      case None => None
      case Some(i) => Some(i + 1)
  }

  /** In a book with unique ids, which every `User` keeps, the address
      found is the only one carrying the id. */
  lemma {:induction false} FindAddressOnly(a: seq<Address>, id: nat, i: nat)
    requires AddressIdsUnique(a) && i < |a| && a[i].id == id
    ensures FindAddress(a, id) == Some(i)
    decreases i
  {
    if i > 0 {
      assert a[0].id != id;
      assert AddressIdsUnique(a[1..]) by {
        forall j, k | 0 <= j < k < |a| - 1
          ensures a[1..][j].id != a[1..][k].id
        {
          assert a[1..][j] == a[j + 1] && a[1..][k] == a[k + 1];
        }
      }
      FindAddressOnly(a[1..], id, i - 1);
    }
  }

  /** `addresses.forEach(addr => { addr.isDefault = false })`. */
  function ClearDefaults(a: seq<Address>): (r: seq<Address>)
    ensures |r| == |a|
    ensures forall i :: 0 <= i < |a| ==> r[i] == a[i].(isDefault := false)
  {
    if a == [] then [] else [a[0].(isDefault := false)] + ClearDefaults(a[1..])
  }

  /** `addAddress` on a valid body: the first address, or one asked to be
      default, becomes the only default; the new entry is appended last. */
  function AfterAdd(a: seq<Address>, id: nat, f: AddressFields, isDefault: bool): (r: seq<Address>)
    ensures |r| == |a| + 1 && r[|a|].id == id && r[|a|].fields == f
    ensures r[|a|].isDefault <==> a == [] || isDefault
    ensures forall k :: 0 <= k < |a| ==>
      r[k].id == a[k].id && r[k].fields == a[k].fields
      && r[k].isDefault == (a[k].isDefault && !(a == [] || isDefault))
  {
    var makeDefault := a == [] || isDefault;
    (if makeDefault then ClearDefaults(a) else a) + [Address(id, f, makeDefault)]
  }

  /** `deleteAddress`: the entry goes, and when it was the default the first
      remaining entry takes over. */
  function AfterDelete(a: seq<Address>, i: nat): (r: seq<Address>)
    requires i < |a|
    ensures |r| == |a| - 1
    ensures forall k :: 0 <= k < |r| ==>
      r[k].id == a[if k < i then k else k + 1].id && r[k].fields == a[if k < i then k else k + 1].fields
    ensures forall k :: 0 < k < |r| ==> r[k].isDefault == a[if k < i then k else k + 1].isDefault
    ensures r != [] ==> r[0].isDefault == (a[i].isDefault || a[if i == 0 then 1 else 0].isDefault)
  {
    var rest := a[..i] + a[i + 1..];
    if a[i].isDefault && |rest| > 0 then rest[0 := rest[0].(isDefault := true)] else rest
  }

  /** `setDefaultAddress`: every flag cleared, then the chosen one set. */
  function AfterSetDefault(a: seq<Address>, i: nat): (r: seq<Address>)
    requires i < |a|
    ensures |r| == |a|
    ensures forall k :: 0 <= k < |a| ==> r[k].id == a[k].id && r[k].fields == a[k].fields
    ensures forall k :: 0 <= k < |a| ==> (r[k].isDefault <==> k == i)
  {
    ClearDefaults(a)[i := a[i].(isDefault := true)]
  }

  /** `updateAddress`: the six fields of one entry are replaced. */
  function AfterUpdate(a: seq<Address>, i: nat, f: AddressFields): (r: seq<Address>)
    requires i < |a|
    ensures |r| == |a| && r[i] == Address(a[i].id, f, a[i].isDefault)
    ensures forall k :: 0 <= k < |a| && k != i ==> r[k] == a[k]
  {
    a[i := a[i].(fields := f)]
  }

  lemma AddKeepsDefaultRule(a: seq<Address>, id: nat, f: AddressFields, isDefault: bool)
    ensures AtMostOneDefault(a) ==> AtMostOneDefault(AfterAdd(a, id, f, isDefault))
    ensures DefaultRule(a) ==> DefaultRule(AfterAdd(a, id, f, isDefault))
  {
    var r := AfterAdd(a, id, f, isDefault);
    if DefaultRule(a) && a != [] && !isDefault {
      var i :| 0 <= i < |a| && a[i].isDefault;
      assert r[i].isDefault;
    }
  }

  /** Deleting keeps the ids unique and below the counter. */
  lemma DeleteKeepsIds(a: seq<Address>, i: nat, bound: nat)
    requires i < |a| && AddressIdsUnique(a) && AddressIdsBelow(a, bound)
    ensures AddressIdsUnique(AfterDelete(a, i)) && AddressIdsBelow(AfterDelete(a, i), bound)
  {
    var r := AfterDelete(a, i);
    forall x, y | 0 <= x < y < |r|
      ensures r[x].id != r[y].id
    {
      assert r[x].id == a[if x < i then x else x + 1].id;
    }
  }

  lemma DeleteKeepsDefaultRule(a: seq<Address>, i: nat)
    requires i < |a|
    ensures AtMostOneDefault(a) ==> AtMostOneDefault(AfterDelete(a, i))
    ensures DefaultRule(a) ==> DefaultRule(AfterDelete(a, i))
  {
    var r := AfterDelete(a, i);
    if AtMostOneDefault(a) {
      forall x, y | 0 <= x < y < |r| && r[x].isDefault
        ensures !r[y].isDefault
      {
        var sy := if y < i then y else y + 1;
        if x == 0 && a[i].isDefault {
          assert !a[sy].isDefault;
        } else {
          var sx := if x < i then x else x + 1;
          if x == 0 {
            sx := if i == 0 then 1 else 0;
          }
          assert a[sx].isDefault && sx < sy;
        }
      }
    }
    if DefaultRule(a) && r != [] && !a[i].isDefault {
      var j :| 0 <= j < |a| && a[j].isDefault;
      var k := if j < i then j else j - 1;
      assert r[k].isDefault;
    }
  }

  lemma SetDefaultKeepsDefaultRule(a: seq<Address>, i: nat)
    requires i < |a|
    ensures DefaultRule(AfterSetDefault(a, i))
  {
    assert AfterSetDefault(a, i)[i].isDefault;
  }

  lemma UpdateKeepsDefaultRule(a: seq<Address>, i: nat, f: AddressFields)
    requires i < |a|
    ensures AtMostOneDefault(a) ==> AtMostOneDefault(AfterUpdate(a, i, f))
    ensures DefaultRule(a) ==> DefaultRule(AfterUpdate(a, i, f))
  {
    var r := AfterUpdate(a, i, f);
    assert forall k :: 0 <= k < |a| ==> r[k].isDefault == a[k].isDefault;
    if DefaultRule(a) {
      var j :| 0 <= j < |a| && a[j].isDefault;
      assert r[j].isDefault;
    }
  }

  /** `pull(productId)`: every occurrence removed. */
  function RemoveAll(s: seq<string>, x: string): (r: seq<string>)
    ensures forall y :: y in r <==> y in s && y != x
    ensures x !in s ==> r == s
  {
    if s == [] then []
    else (if s[0] == x then [] else [s[0]]) + RemoveAll(s[1..], x)
  }

  /** `toggleSavedProduct`: pull when present, push otherwise. */
  function Toggled(s: seq<string>, x: string): (r: seq<string>)
    ensures x in r <==> x !in s
    ensures forall y :: y != x ==> (y in r <==> y in s)
  {
    if x in s then RemoveAll(s, x) else s + [x]
  }

  /** Toggling twice restores membership; when the product was not saved,
      it restores the very list. */
  lemma {:induction false} ToggleTwice(s: seq<string>, x: string)
    ensures forall y :: y in Toggled(Toggled(s, x), x) <==> y in s
    ensures x !in s ==> Toggled(Toggled(s, x), x) == s
  {
    if x !in s {
      RemoveAllAppended(s, x);
    }
  }

  lemma {:induction false} RemoveAllAppended(s: seq<string>, x: string)
    requires x !in s
    ensures RemoveAll(s + [x], x) == s
  {
    if s == [] {
      assert [x][1..] == [];
    } else {
      assert (s + [x])[1..] == s[1..] + [x];
      RemoveAllAppended(s[1..], x);
      assert s == [s[0]] + s[1..];
    }
  }

  class User {
    var name: string
    var phone: string
    var addresses: seq<Address>
    var nextAddressId: nat
    var savedProducts: seq<string>

    ghost predicate Valid()
      reads this
    {
      AddressIdsUnique(addresses) && AddressIdsBelow(addresses, nextAddressId)
    }

    constructor (name: string)
      ensures Valid() && this.name == name && phone == "" && addresses == [] && savedProducts == []
    {
      this.name, phone, addresses, nextAddressId, savedProducts := name, "", [], 0, [];
    }

    method UpdateProfile(newName: string, newPhone: string) returns (r: Option<ProfileError>)
      requires Valid()
      modifies this
      ensures Valid()
      ensures r == ProfileCheck(newName, newPhone)
      ensures r.None? ==> name == Trim(newName) && phone == newPhone
      ensures r.Some? ==> name == old(name) && phone == old(phone)
      ensures addresses == old(addresses) && nextAddressId == old(nextAddressId)
      ensures savedProducts == old(savedProducts)
    {
      var trimmed := Trim(newName);
      r := ProfileCheck(newName, newPhone);
      if r.None? {
        name, phone := trimmed, newPhone;
      }
    }

    /** The `forEach` that clears every default flag. */
    method ClearAllDefaults()
      requires Valid()
      modifies this
      ensures Valid()
      ensures addresses == ClearDefaults(old(addresses))
      ensures name == old(name) && phone == old(phone) && nextAddressId == old(nextAddressId)
      ensures savedProducts == old(savedProducts)
    {
      var i := 0;
      while i < |addresses|
        invariant 0 <= i <= |addresses| == |old(addresses)|
        invariant forall k :: 0 <= k < i ==> addresses[k] == old(addresses)[k].(isDefault := false)
        invariant forall k :: i <= k < |addresses| ==> addresses[k] == old(addresses)[k]
        invariant name == old(name) && phone == old(phone) && nextAddressId == old(nextAddressId)
        invariant savedProducts == old(savedProducts)
      {
        addresses := addresses[i := addresses[i].(isDefault := false)];
        i := i + 1;
      }
    }

    method AddAddress(f: AddressFields, isDefault: bool) returns (r: Option<AddressError>)
      requires Valid()
      modifies this
      ensures Valid()
      ensures r == AddressCheck(f)
      ensures r.None? ==>
        addresses == AfterAdd(old(addresses), old(nextAddressId), f, isDefault) && nextAddressId == old(nextAddressId) + 1
      ensures r.Some? ==> addresses == old(addresses) && nextAddressId == old(nextAddressId)
      ensures name == old(name) && phone == old(phone) && savedProducts == old(savedProducts)
    {
      r := AddressCheck(f);
      if r.Some? {
        return;
      }
      var makeDefault := isDefault;
      if |addresses| == 0 {
        makeDefault := true;
      }
      if makeDefault {
        ClearAllDefaults();
      }
      addresses := addresses + [Address(nextAddressId, f, makeDefault)];
      nextAddressId := nextAddressId + 1;
    }

    method DeleteAddress(id: nat) returns (r: Option<AddressError>)
      requires Valid()
      modifies this
      ensures Valid()
      ensures r.Some? <==> FindAddress(old(addresses), id).None?
      ensures r.Some? ==> r.value == AddressNotFound && addresses == old(addresses)
      ensures r.None? ==> addresses == AfterDelete(old(addresses), FindAddress(old(addresses), id).value)
      ensures name == old(name) && phone == old(phone) && nextAddressId == old(nextAddressId)
      ensures savedProducts == old(savedProducts)
    {
      var at := FindAddress(addresses, id);
      if at.None? {
        return Some(AddressNotFound);
      }
      var i := at.value;
      DeleteKeepsIds(addresses, i, nextAddressId);
      var wasDefault := addresses[i].isDefault;
      addresses := addresses[..i] + addresses[i + 1..];
      if wasDefault && |addresses| > 0 {
        addresses := addresses[0 := addresses[0].(isDefault := true)];
      }
      return None;
    }

    method SetDefaultAddress(id: nat) returns (r: Option<AddressError>)
      requires Valid()
      modifies this
      ensures Valid()
      ensures r.Some? <==> FindAddress(old(addresses), id).None?
      ensures r.Some? ==> r.value == AddressNotFound && addresses == old(addresses)
      ensures r.None? ==> addresses == AfterSetDefault(old(addresses), FindAddress(old(addresses), id).value)
      ensures name == old(name) && phone == old(phone) && nextAddressId == old(nextAddressId)
      ensures savedProducts == old(savedProducts)
    {
      var at := FindAddress(addresses, id);
      if at.None? {
        return Some(AddressNotFound);
      }
      var i := at.value;
      var before := addresses;
      ClearAllDefaults();
      assert addresses[i].(isDefault := true) == before[i].(isDefault := true);
      addresses := addresses[i := before[i].(isDefault := true)];
      assert forall k :: 0 <= k < |addresses| ==> addresses[k].id == before[k].id;
      return None;
    }

    method UpdateAddress(id: nat, f: AddressFields) returns (r: Option<AddressError>)
      requires Valid()
      modifies this
      ensures Valid()
      ensures r == (if AddressCheck(f).Some? then AddressCheck(f)
                    else if FindAddress(old(addresses), id).None? then Some(AddressNotFound)
                    else None)
      ensures r.Some? ==> addresses == old(addresses)
      ensures r.None? ==> addresses == AfterUpdate(old(addresses), FindAddress(old(addresses), id).value, f)
      ensures name == old(name) && phone == old(phone) && nextAddressId == old(nextAddressId)
      ensures savedProducts == old(savedProducts)
    {
      r := AddressCheck(f);
      if r.Some? {
        return;
      }
      var at := FindAddress(addresses, id);
      if at.None? {
        return Some(AddressNotFound);
      }
      var i := at.value;
      addresses := addresses[i := addresses[i].(fields := f)];
    }

    /** `toggleSavedProduct`; the answer's `saved` is `!alreadySaved`. */
    method ToggleSavedProduct(productId: string) returns (saved: bool)
      requires Valid()
      modifies this
      ensures Valid()
      ensures saved <==> productId !in old(savedProducts)
      ensures savedProducts == Toggled(old(savedProducts), productId)
      ensures name == old(name) && phone == old(phone) && addresses == old(addresses)
      ensures nextAddressId == old(nextAddressId)
    {
      var alreadySaved := productId in savedProducts;
      if alreadySaved {
        savedProducts := RemoveAll(savedProducts, productId);
      } else {
        savedProducts := savedProducts + [productId];
      }
      return !alreadySaved;
    }
  }
}
