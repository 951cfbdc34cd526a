/**
 * The dashboard controller: one component whose state object holds the
 * loaded user list, the four form fields, the error message, the page
 * cursor, the id of the user being edited and the loading flag. Each event
 * handler is a method on that state.
 *
 * A handler that talks to the server is split in two: the step that runs
 * when the user acts (it validates and returns the request it would send,
 * or nothing) and the step that runs when the response settles (it takes
 * the outcome as a parameter). What the update and delete responses need
 * from the moment of submission, the captured id, is a parameter of the
 * settling step.
 */
module Dashboard {
  import opened UserRecords
  import Paging

  /** The settled result of one request: the response body, or a failure of any kind. */
  datatype Outcome<+T> = Ok(value: T) | Err

  /** The requests the controller sends; the endpoint URL itself is not modelled. */
  datatype Request =
    | ListPage(page: int, limit: int)
    | Create(body: User)
    | Update(id: string, body: User)
    | Delete(id: string)

  const UsersPerPage := 5

  const RequiredMessage := "All fields are required!"
  const FetchErrorMessage := "Error fetching users!"
  const AddErrorMessage := "Error adding user!"
  const UpdateErrorMessage := "Error updating user!"
  const DeleteErrorMessage := "Error deleting user!"

  /**
   * The form submits as an update when the editing id is truthy: `null` and
   * the empty string are falsy, every other string is truthy.
   */
  function InEditMode(editingUserId: Option<string>): (editing: bool)
    ensures editingUserId == None ==> !editing
    ensures editingUserId == Some("") ==> !editing
    ensures forall id :: id != "" && editingUserId == Some(id) ==> editing
  {
    editingUserId.Some? && editingUserId.value != ""
  }

  class App {
    var usersList: seq<User>
    var firstName: string
    var lastName: string
    var email: string
    var department: string
    var error: string
    var currentPage: int
    var usersPerPage: int
    var editingUserId: Option<string>
    var loading: bool

    /** The page cursor never drops below the first page; the page size never changes. */
    ghost predicate Valid()
      reads this
    {
      currentPage >= Paging.FirstPage && usersPerPage == UsersPerPage
    }

    /** The four form fields as one value. */
    function CurrentDraft(): Draft
      reads this
    {
      Draft(firstName, lastName, email, department)
    }

    /** The initial state: no users, an empty form in add mode, no error, page 1, not loading. */
    constructor ()
      ensures Valid()
      ensures usersList == [] && CurrentDraft() == EmptyDraft && error == ""
      ensures currentPage == Paging.FirstPage && usersPerPage == UsersPerPage
      ensures editingUserId == None && !loading
    {
      usersList := [];
      firstName, lastName, email, department := "", "", "", "";
      error := "";
      currentPage := Paging.FirstPage;
      usersPerPage := UsersPerPage;
      editingUserId := None;
      loading := false;
    }

    /** On mount the component fetches the current page. */
    method Mount() returns (req: Request)
      requires Valid()
      modifies this`loading
      ensures Valid() && loading
      ensures req == ListPage(currentPage, usersPerPage)
    {
      req := FetchUsers();
    }

    /** A fetch raises the loading flag and asks for the current page at the current page size. */
    method FetchUsers() returns (req: Request)
      requires Valid()
      modifies this`loading
      ensures Valid() && loading
      ensures req == ListPage(currentPage, usersPerPage)
    {
      loading := true;
      req := ListPage(currentPage, usersPerPage);
    }

    /**
     * A settled fetch lowers the loading flag. A response replaces the list
     * wholesale and leaves any earlier error standing; a failure keeps the
     * list and reports the fetch error.
     */
    method FetchSettled(outcome: Outcome<seq<User>>)
      requires Valid()
      modifies this`usersList, this`error, this`loading
      ensures Valid() && !loading
      ensures outcome.Ok? ==> usersList == outcome.value && error == old(error)
      ensures outcome.Err? ==> usersList == old(usersList) && error == FetchErrorMessage
    {
      match outcome
      case Ok(users) =>
        usersList, loading := users, false;
      case Err =>
        error, loading := FetchErrorMessage, false;
    }

    /**
     * Submitting in add mode. With a field empty only the error changes and
     * nothing is sent; otherwise the draft is sent under the client-generated
     * id and no state changes until the response settles.
     */
    method AddUser(clientId: string) returns (req: Option<Request>)
      requires Valid()
      modifies this`error
      ensures Valid()
      ensures !IsComplete(CurrentDraft()) ==> req == None && error == RequiredMessage
      ensures IsComplete(CurrentDraft()) ==> req == Some(Create(WithId(CurrentDraft(), clientId))) && error == old(error)
    {
      if !IsComplete(CurrentDraft()) {
        error := RequiredMessage;
        return None;
      }
      req := Some(Create(WithId(CurrentDraft(), clientId)));
    }

    /**
     * A settled create. The record the server returns goes at the end of the
     * list and the form and error are cleared; a failure keeps list and form
     * and reports the add error. The editing id and the page are not touched.
     */
    method AddSettled(outcome: Outcome<User>)
      requires Valid()
      modifies this`usersList, this`firstName, this`lastName, this`email, this`department, this`error
      ensures Valid()
      ensures outcome.Ok? ==> && usersList == old(usersList) + [outcome.value]
                              && CurrentDraft() == EmptyDraft && error == ""
      ensures outcome.Err? ==> && usersList == old(usersList)
                               && CurrentDraft() == old(CurrentDraft()) && error == AddErrorMessage
    {
      match outcome
      case Ok(created) =>
        usersList := usersList + [created];
        firstName, lastName, email, department := "", "", "", "";
        error := "";
      case Err =>
        error := AddErrorMessage;
    }

    /**
     * Entering edit mode on `user`: the form holds its four fields and the
     * editing id is its id. Any unsaved draft is overwritten; the list and
     * the error stay as they are.
     */
    method EditUser(user: User)
      requires Valid()
      modifies this`firstName, this`lastName, this`email, this`department, this`editingUserId
      ensures Valid()
      ensures CurrentDraft() == DraftOf(user) && editingUserId == Some(user.id)
    {
      firstName, lastName, email, department := user.firstName, user.lastName, user.email, user.department;
      editingUserId := Some(user.id);
    }

    /**
     * Submitting in edit mode. With a field empty only the error changes and
     * nothing is sent; otherwise the draft is sent under the editing id, which
     * the request carries to the settling step.
     */
    method UpdateUser() returns (req: Option<Request>)
      requires Valid() && editingUserId.Some?
      modifies this`error
      ensures Valid()
      ensures !IsComplete(CurrentDraft()) ==> req == None && error == RequiredMessage
      ensures IsComplete(CurrentDraft()) ==>
                && req == Some(Update(editingUserId.value, WithId(CurrentDraft(), editingUserId.value)))
                && error == old(error)
    {
      if !IsComplete(CurrentDraft()) {
        error := RequiredMessage;
        return None;
      }
      var id := editingUserId.value;
      req := Some(Update(id, WithId(CurrentDraft(), id)));
    }

    /**
     * A settled update for the id captured at submission. The returned record
     * takes the place of every listed user with that id, the form is cleared,
     * the form goes back to add mode and the error is cleared; a failure keeps
     * list, form and mode and reports the update error.
     */
    method UpdateSettled(editedId: string, outcome: Outcome<User>)
      requires Valid()
      modifies this`usersList, this`firstName, this`lastName, this`email, this`department
      modifies this`editingUserId, this`error
      ensures Valid()
      ensures outcome.Ok? ==> && usersList == ReplaceById(old(usersList), editedId, outcome.value)
                              && CurrentDraft() == EmptyDraft && editingUserId == None && error == ""
      ensures outcome.Err? ==> && usersList == old(usersList) && CurrentDraft() == old(CurrentDraft())
                               && editingUserId == old(editingUserId) && error == UpdateErrorMessage
    {
      match outcome
      case Ok(updated) =>
        usersList := ReplaceById(usersList, editedId, updated);
        firstName, lastName, email, department := "", "", "", "";
        editingUserId := None;
        error := "";
      case Err =>
        error := UpdateErrorMessage;
    }

    /** The submit handler the form is bound to: update in edit mode, add otherwise. */
    method Submit(clientId: string) returns (req: Option<Request>)
      requires Valid()
      modifies this`error
      ensures Valid()
      ensures !IsComplete(CurrentDraft()) ==> req == None && error == RequiredMessage
      ensures IsComplete(CurrentDraft()) && InEditMode(editingUserId) ==>
                req == Some(Update(editingUserId.value, WithId(CurrentDraft(), editingUserId.value)))
      ensures IsComplete(CurrentDraft()) && !InEditMode(editingUserId) ==>
                req == Some(Create(WithId(CurrentDraft(), clientId)))
      ensures IsComplete(CurrentDraft()) ==> error == old(error)
    {
      if InEditMode(editingUserId) {
        req := UpdateUser();
      } else {
        req := AddUser(clientId);
      }
    }

    /** Deleting sends the request and changes nothing until it settles; the loading flag is not raised. */
    method DeleteUser(id: string) returns (req: Request)
      ensures req.Delete? && req.id == id
    {
      req := Delete(id);
    }

    /**
     * A settled delete of `id`. Success removes every listed user with that
     * id and leaves the error as it was, stale or not; a failure keeps the
     * list and reports the delete error.
     */
    method DeleteSettled(id: string, outcome: Outcome<()>)
      requires Valid()
      modifies this`usersList, this`error
      ensures Valid()
      ensures outcome.Ok? ==> usersList == RemoveById(old(usersList), id) && error == old(error)
      ensures outcome.Err? ==> usersList == old(usersList) && error == DeleteErrorMessage
    {
      match outcome
      case Ok(_) =>
        usersList := RemoveById(usersList, id);
      case Err =>
        error := DeleteErrorMessage;
    }

    /** The next-page button: one page further, then a fetch of the new page. */
    method NextPage() returns (req: Request)
      requires Valid()
      modifies this`currentPage, this`loading
      ensures Valid() && loading
      ensures currentPage == old(currentPage) + 1
      ensures req == ListPage(currentPage, usersPerPage)
    {
      currentPage := Paging.Next(currentPage);
      req := FetchUsers();
    }

    /** The previous-page button: one page back but not below the first, then a fetch of that page. */
    method PrevPage() returns (req: Request)
      requires Valid()
      modifies this`currentPage, this`loading
      ensures Valid() && loading
      ensures old(currentPage) > Paging.FirstPage ==> currentPage == old(currentPage) - 1
      ensures old(currentPage) == Paging.FirstPage ==> currentPage == Paging.FirstPage
      ensures req == ListPage(currentPage, usersPerPage)
    {
      currentPage := Paging.Prev(currentPage);
      req := FetchUsers();
    }

    /** One form input reports a new value: that field changes and nothing else. */
    method ChangeField(field: Field, value: string)
      requires Valid()
      modifies this`firstName, this`lastName, this`email, this`department
      ensures Valid()
      ensures CurrentDraft() == SetField(old(CurrentDraft()), field, value)
    {
      match field
      case FirstName => firstName := value;
      case LastName => lastName := value;
      case Email => email := value;
      case Department => department := value;
    }
  }

  /**
   * Entering edit mode on a user and submitting straight away sends the
   * user's own fields back under its own id. A user whose id is the empty
   * string is falsy to the form, which then submits it as a new user.
   */
  method EditThenSubmit(app: App, user: User, clientId: string) returns (req: Option<Request>)
    requires app.Valid()
    modifies app`firstName, app`lastName, app`email, app`department, app`editingUserId, app`error
    ensures app.Valid()
    ensures app.CurrentDraft() == DraftOf(user) && app.editingUserId == Some(user.id)
    ensures IsComplete(DraftOf(user)) ==> app.error == old(app.error)
    ensures !IsComplete(DraftOf(user)) ==> req == None && app.error == RequiredMessage
    ensures IsComplete(DraftOf(user)) && user.id != "" ==> req == Some(Update(user.id, user))
    ensures IsComplete(DraftOf(user)) && user.id == "" ==> req == Some(Create(WithId(DraftOf(user), clientId)))
    ensures app.usersList == old(app.usersList) && app.currentPage == old(app.currentPage)
  {
    app.EditUser(user);
    req := app.Submit(clientId);
  }
}
