/**
 * User records and the pure list transforms the dashboard applies to its
 * user list: the record a form submission builds, the copy into the form
 * when editing starts, replacement by id after an update and removal by id
 * after a delete.
 */
module UserRecords {

  datatype Option<+T> = None | Some(value: T)

  /** One user, as the server returns it and the table shows it. */
  datatype User = User(id: string, firstName: string, lastName: string, email: string, department: string)

  /** The four editable fields of the form. */
  datatype Draft = Draft(firstName: string, lastName: string, email: string, department: string)

  /** The form inputs, by the state key each one is bound to. */
  datatype Field = FirstName | LastName | Email | Department

  const EmptyDraft := Draft("", "", "", "")

  function GetField(d: Draft, f: Field): string
  {
    match f
    case FirstName => d.firstName
    case LastName => d.lastName
    case Email => d.email
    case Department => d.department
  }

  /** A user's value for one form input. */
  function UserField(u: User, f: Field): string
  {
    match f
    case FirstName => u.firstName
    case LastName => u.lastName
    case Email => u.email
    case Department => u.department
  }

  /**
   * The presence check of a submission. A JavaScript string is falsy exactly
   * when it is empty, so the draft passes when no input is empty.
   */
  function IsComplete(d: Draft): (ok: bool)
    ensures ok <==> forall f :: GetField(d, f) != ""
  {
    assert GetField(d, FirstName) == d.firstName && GetField(d, LastName) == d.lastName;
    assert GetField(d, Email) == d.email && GetField(d, Department) == d.department;
    d.firstName != "" && d.lastName != "" && d.email != "" && d.department != ""
  }

  /** The draft after one input reports a new value: that field and no other changes. */
  function SetField(d: Draft, f: Field, v: string): (r: Draft)
    ensures GetField(r, f) == v
    ensures forall g :: g != f ==> GetField(r, g) == GetField(d, g)
  {
    match f
    case FirstName => d.(firstName := v)
    case LastName => d.(lastName := v)
    case Email => d.(email := v)
    case Department => d.(department := v)
  }

  /** The record a submission sends: the draft's four fields under the given id. */
  function WithId(d: Draft, id: string): (u: User)
    ensures u.id == id
    ensures forall f :: UserField(u, f) == GetField(d, f)
  {
    User(id, d.firstName, d.lastName, d.email, d.department)
  }

  /**
   * The draft that entering edit mode on `u` fills in. Sending it back under
   * `u`'s own id rebuilds `u` exactly.
   */
  function DraftOf(u: User): (d: Draft)
    ensures WithId(d, u.id) == u
  {
    Draft(u.firstName, u.lastName, u.email, u.department)
  }

  /** Every user whose id is `id` becomes `r`; the others stay where they are. */
  function ReplaceById(list: seq<User>, id: string, r: User): (res: seq<User>)
    ensures |res| == |list|
  {
    if list == [] then []
    else [if list[0].id == id then r else list[0]] + ReplaceById(list[1..], id, r)
  }

  /** Every user whose id is `id` is dropped; the others keep their order. */
  function RemoveById(list: seq<User>, id: string): (res: seq<User>)
    ensures |res| <= |list|
    ensures forall u :: u in res ==> u in list && u.id != id
  {
    if list == [] then []
    else if list[0].id == id then RemoveById(list[1..], id)
    else [list[0]] + RemoveById(list[1..], id)
  }

  /** No two users in the list share an id. */
  ghost predicate UniqueIds(list: seq<User>)
  {
    forall i, j :: 0 <= i < |list| && 0 <= j < |list| && list[i].id == list[j].id ==> i == j
  }

  // ---------------------------------------------------------------------
  // Replacement by id

  lemma {:induction false} ReplaceByIdAt(list: seq<User>, id: string, r: User, i: nat)
    requires i < |list|
    ensures ReplaceById(list, id, r)[i] == if list[i].id == id then r else list[i]
  {
    if i > 0 {
      ReplaceByIdAt(list[1..], id, r, i - 1);
    }
  }

  /** The replacement, position by position: the same length, the matches become `r`, the rest are untouched. */
  lemma {:induction false} ReplaceByIdPointwise(list: seq<User>, id: string, r: User)
    ensures |ReplaceById(list, id, r)| == |list|
    ensures forall i :: 0 <= i < |list| && list[i].id == id ==> ReplaceById(list, id, r)[i] == r
    ensures forall i :: 0 <= i < |list| && list[i].id != id ==> ReplaceById(list, id, r)[i] == list[i]
  {
    forall i | 0 <= i < |list| ensures ReplaceById(list, id, r)[i] == if list[i].id == id then r else list[i] {
      ReplaceByIdAt(list, id, r, i);
    }
  }

  /** The replacement leaves the list as it was exactly when every user with that id already is `r`. */
  lemma {:induction false} ReplaceByIdUnchangedIff(list: seq<User>, id: string, r: User)
    ensures ReplaceById(list, id, r) == list <==> forall i :: 0 <= i < |list| && list[i].id == id ==> list[i] == r
  {
    ReplaceByIdPointwise(list, id, r);
    if forall i :: 0 <= i < |list| && list[i].id == id ==> list[i] == r {
      assert forall i :: 0 <= i < |list| ==> ReplaceById(list, id, r)[i] == list[i];
    }
  }

  /** Applying the same update response twice gives the list of applying it once. */
  lemma {:induction false} ReplaceByIdIdempotent(list: seq<User>, id: string, r: User)
    ensures ReplaceById(ReplaceById(list, id, r), id, r) == ReplaceById(list, id, r)
  {
    var once := ReplaceById(list, id, r);
    ReplaceByIdPointwise(list, id, r);
    ReplaceByIdUnchangedIff(once, id, r);
  }

  /**
   * Editing a listed user and sending the form back unchanged, with a server
   * that echoes the request body, leaves the list as it was.
   */
  lemma {:induction false} EditEchoIsNoOp(list: seq<User>, i: nat)
    requires UniqueIds(list) && i < |list|
    ensures ReplaceById(list, list[i].id, WithId(DraftOf(list[i]), list[i].id)) == list
  {
    ReplaceByIdUnchangedIff(list, list[i].id, list[i]);
  }

  // ---------------------------------------------------------------------
  // Removal by id

  /** Removal distributes over concatenation, so the survivors keep their relative order. */
  lemma {:induction false} RemoveByIdAppend(a: seq<User>, b: seq<User>, id: string)
    ensures RemoveById(a + b, id) == RemoveById(a, id) + RemoveById(b, id)
  {
    if a == [] {
      assert a + b == b;
    } else {
      assert (a + b)[0] == a[0];
      assert (a + b)[1..] == a[1..] + b;
      RemoveByIdAppend(a[1..], b, id);
    }
  }

  /** On one user, removal keeps it exactly when its id differs. */
  lemma RemoveByIdSingleton(u: User, id: string)
    ensures RemoveById([u], id) == if u.id == id then [] else [u]
  {
    assert [u][1..] == [];
  }

  /** Each user with the removed id disappears entirely; every other user keeps its multiplicity. */
  lemma {:induction false} RemoveByIdCount(list: seq<User>, id: string, u: User)
    ensures multiset(RemoveById(list, id))[u] == if u.id == id then 0 else multiset(list)[u]
  {
    if list != [] {
      RemoveByIdCount(list[1..], id, u);
      assert list == [list[0]] + list[1..];
      assert multiset(list) == multiset([list[0]]) + multiset(list[1..]);
    }
  }

  /** Removal leaves the list as it was exactly when no user in it has that id. */
  lemma {:induction false} RemoveByIdUnchangedIff(list: seq<User>, id: string)
    ensures RemoveById(list, id) == list <==> forall u :: u in list ==> u.id != id
  {
    if list != [] && forall u :: u in list ==> u.id != id {
      assert forall u :: u in list[1..] ==> u in list;
      RemoveByIdUnchangedIff(list[1..], id);
    }
  }

  /** Deleting the same id twice removes nothing the first time did not. */
  lemma {:induction false} RemoveByIdIdempotent(list: seq<User>, id: string)
    ensures RemoveById(RemoveById(list, id), id) == RemoveById(list, id)
  {
    RemoveByIdUnchangedIff(RemoveById(list, id), id);
  }
}
