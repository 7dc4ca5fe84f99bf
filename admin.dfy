/**
 * The admin page: the login gate, the new-design draft with its editable
 * list of measurement names, and the booking status selector.
 */
module Admin {
  import opened Wrappers
  import Bookings

  /** A username and password pair. */
  datatype Credentials = Credentials(username: string, password: string)

  /** The chosen image file; only its name is shown. */
  datatype ImageFile = ImageFile(name: string)

  /** The `newDesign` state. */
  datatype DesignDraft = DesignDraft(
    name: string,
    category: string,
    measurements: seq<string>,
    image: Option<ImageFile>)

  /** The draft the page starts with and returns to after each upload. */
  const EmptyDraft := DesignDraft("", "", [""], None)

  /** The values the status selector offers. */
  const StatusOptions := ["Pending", "In Progress", "Completed"]

  /** `[...measurements, ""]`. */
  function AppendBlank(ms: seq<string>): (r: seq<string>)
    ensures |r| == |ms| + 1 && r[|ms|] == ""
    ensures forall i :: 0 <= i < |ms| ==> r[i] == ms[i]
  {
    ms + [""]
  }

  /**
   * `measurements.filter((_, i) => i !== index)`: the entry at `index` goes,
   * the others stay in order; an index outside the list removes nothing.
   */
  function RemoveAt(ms: seq<string>, index: int): (r: seq<string>)
    ensures r == if 0 <= index < |ms| then ms[..index] + ms[index + 1..] else ms
    decreases |ms|
  {
    if ms == [] then []
    else (if index == 0 then [] else [ms[0]]) + RemoveAt(ms[1..], index - 1)
  }

  /**
   * `measurements.map((m, i) => i === index ? value : m)`: only the entry at
   * `index` is replaced; an index outside the list replaces nothing.
   */
  function ReplaceAt(ms: seq<string>, index: int, value: string): (r: seq<string>)
    ensures r == if 0 <= index < |ms| then ms[index := value] else ms
  {
    seq(|ms|, i requires 0 <= i < |ms| => if i == index then value else ms[i])
  }

  /** Removing the entry just appended gives back the list before the append. */
  lemma RemoveUndoesAppend(ms: seq<string>)
    ensures RemoveAt(AppendBlank(ms), |ms|) == ms
  {
  }

  /** Putting back the old entry undoes a replacement. */
  lemma ReplaceBackUndoes(ms: seq<string>, index: int, value: string)
    requires 0 <= index < |ms|
    ensures ReplaceAt(ReplaceAt(ms, index, value), index, ms[index]) == ms
  {
  }

  /** Removing shortens the list by one exactly when the index is inside it. */
  lemma RemoveAtLength(ms: seq<string>, index: int)
    ensures |RemoveAt(ms, index)| == if 0 <= index < |ms| then |ms| - 1 else |ms|
  {
  }

  /** The editing actions the draft form offers. */
  datatype EditorAction =
    | AddMeasurement
    | RemoveMeasurement(index: int)
    | ChangeMeasurement(index: int, value: string)
    | SubmitDesign

  /**
   * Whether the form renders the control for an action: a remove button
   * only while there is more than one row, and per-row controls only for
   * rows that exist.
   */
  predicate Offered(ms: seq<string>, a: EditorAction) {
    match a
    case RemoveMeasurement(i) => |ms| > 1 && 0 <= i < |ms|
    case ChangeMeasurement(i, _) => 0 <= i < |ms|
    case _ => true
  }

  /** The measurement list after one action. */
  function Apply(ms: seq<string>, a: EditorAction): seq<string> {
    match a
    case AddMeasurement => AppendBlank(ms)
    case RemoveMeasurement(i) => RemoveAt(ms, i)
    case ChangeMeasurement(i, v) => ReplaceAt(ms, i, v)
    case SubmitDesign => EmptyDraft.measurements
  }

  /** The measurement list after a sequence of actions, first to last. */
  function Run(ms: seq<string>, actions: seq<EditorAction>): seq<string>
    decreases |actions|
  {
    if actions == [] then ms else Run(Apply(ms, actions[0]), actions[1..])
  }

  /** Every action of the sequence is offered in the state it is taken in. */
  predicate AllOffered(ms: seq<string>, actions: seq<EditorAction>)
    decreases |actions|
  {
    actions == [] || (Offered(ms, actions[0]) && AllOffered(Apply(ms, actions[0]), actions[1..]))
  }

  /** An offered action never leaves the list without a row. */
  lemma OfferedKeepsARow(ms: seq<string>, a: EditorAction)
    requires |ms| >= 1 && Offered(ms, a)
    ensures |Apply(ms, a)| >= 1
  {
  }

  /** Starting from at least one row, the offered actions never empty the list. */
  lemma {:induction false} RunKeepsARow(ms: seq<string>, actions: seq<EditorAction>)
    requires |ms| >= 1 && AllOffered(ms, actions)
    ensures |Run(ms, actions)| >= 1
    decreases |actions|
  {
    if actions != [] {
      OfferedKeepsARow(ms, actions[0]);
      RunKeepsARow(Apply(ms, actions[0]), actions[1..]);
    }
  }

  /** From the initial draft's single row, no sequence of offered actions empties the list. */
  lemma EditorNeverEmpties(actions: seq<EditorAction>)
    requires AllOffered(EmptyDraft.measurements, actions)
    ensures |Run(EmptyDraft.measurements, actions)| >= 1
  {
    RunKeepsARow(EmptyDraft.measurements, actions);
  }

  /**
   * The selector's three values are exactly the three non-gray cases of the
   * bookings page's `StatusColor`, in the order pending, in progress, completed.
   */
  lemma StatusOptionsAreColoured()
    ensures |StatusOptions| == 3
    ensures Bookings.StatusColor(StatusOptions[0]) == Bookings.PendingClasses
    ensures Bookings.StatusColor(StatusOptions[1]) == Bookings.InProgressClasses
    ensures Bookings.StatusColor(StatusOptions[2]) == Bookings.CompletedClasses
  {
    Bookings.PendingIsYellow();
    Bookings.InProgressIsBlue();
    Bookings.CompletedIsGreen();
  }

  /** The admin page's state. */
  class AdminPage {
    var isLoggedIn: bool
    var loginData: Credentials
    var newDesign: DesignDraft

    /** The dashboard, rather than the login form, is rendered. */
    predicate ShowsDashboard()
      reads this
    {
      isLoggedIn
    }

    /** The per-row remove button is rendered. */
    predicate RemoveOffered()
      reads this
    {
      |newDesign.measurements| > 1
    }

    constructor ()
      ensures !isLoggedIn
      ensures loginData == Credentials("", "")
      ensures newDesign == EmptyDraft
    {
      isLoggedIn := false;
      loginData := Credentials("", "");
      newDesign := EmptyDraft;
    }

    method SetUsername(value: string)
      modifies this
      ensures loginData == old(loginData).(username := value)
      ensures isLoggedIn == old(isLoggedIn) && newDesign == old(newDesign)
    {
      loginData := loginData.(username := value);
    }

    method SetPassword(value: string)
      modifies this
      ensures loginData == old(loginData).(password := value)
      ensures isLoggedIn == old(isLoggedIn) && newDesign == old(newDesign)
    {
      loginData := loginData.(password := value);
    }

    /**
     * The login handler against the configured pair: logged in when both
     * fields match; otherwise nothing changes.
     */
    method Login(configured: Credentials) returns (accepted: bool)
      modifies this
      ensures accepted <==>
        loginData.username == configured.username && loginData.password == configured.password
      ensures accepted ==> ShowsDashboard()
      ensures !accepted ==> isLoggedIn == old(isLoggedIn)
      ensures loginData == old(loginData) && newDesign == old(newDesign)
    {
      accepted := loginData.username == configured.username && loginData.password == configured.password;
      if accepted {
        isLoggedIn := true;
      }
    }

    method Logout()
      modifies this
      ensures !ShowsDashboard()
      ensures loginData == old(loginData) && newDesign == old(newDesign)
    {
      isLoggedIn := false;
    }

    method SetName(value: string)
      modifies this
      ensures newDesign == old(newDesign).(name := value)
      ensures isLoggedIn == old(isLoggedIn) && loginData == old(loginData)
    {
      newDesign := newDesign.(name := value);
    }

    method SetCategory(value: string)
      modifies this
      ensures newDesign == old(newDesign).(category := value)
      ensures isLoggedIn == old(isLoggedIn) && loginData == old(loginData)
    {
      newDesign := newDesign.(category := value);
    }

    /** Appends one empty row; every earlier row is kept. */
    method AddMeasurement()
      modifies this
      ensures newDesign == old(newDesign).(measurements := AppendBlank(old(newDesign.measurements)))
      ensures |newDesign.measurements| == |old(newDesign.measurements)| + 1
      ensures newDesign.measurements[..|old(newDesign.measurements)|] == old(newDesign.measurements)
      ensures isLoggedIn == old(isLoggedIn) && loginData == old(loginData)
    {
      newDesign := newDesign.(measurements := AppendBlank(newDesign.measurements));
    }

    /** Deletes the row at `index`; while the button is offered a row always remains. */
    method RemoveMeasurement(index: int)
      modifies this
      ensures newDesign == old(newDesign).(measurements := RemoveAt(old(newDesign.measurements), index))
      ensures old(RemoveOffered()) ==> |newDesign.measurements| >= 1
      ensures isLoggedIn == old(isLoggedIn) && loginData == old(loginData)
    {
      newDesign := newDesign.(measurements := RemoveAt(newDesign.measurements, index));
    }

    /** Replaces the row at `index`; the number of rows is unchanged. */
    method ChangeMeasurement(index: int, value: string)
      modifies this
      ensures newDesign == old(newDesign).(measurements := ReplaceAt(old(newDesign.measurements), index, value))
      ensures |newDesign.measurements| == |old(newDesign.measurements)|
      ensures isLoggedIn == old(isLoggedIn) && loginData == old(loginData)
    {
      newDesign := newDesign.(measurements := ReplaceAt(newDesign.measurements, index, value));
    }

    /** The upload handler: the draft returns to its initial state. */
    method SubmitDesign()
      modifies this
      ensures newDesign == EmptyDraft
      ensures isLoggedIn == old(isLoggedIn) && loginData == old(loginData)
    {
      newDesign := EmptyDraft;
    }

    /** The status selector's handler only reports; no booking and no field changes. */
    method UpdateBookingStatus(bookingId: string, newStatus: string)
      ensures unchanged(this)
    {
    }
  }
}
