/**
 * The booking form of one design: the measurement map seeded from the
 * design's measurement names, the field handlers, the two-step validation
 * and the booking record built on success.
 */
module BookDesign {
  import opened Wrappers
  import opened Designs

  /** The unit selector's two values. */
  datatype Unit = Inches | Centimeters

  /** The value the selector stores and the booking carries. */
  function UnitValue(u: Unit): string {
    match u
    case Inches => "inches"
    case Centimeters => "cm"
  }

  /** Reads a selector value back; anything but the two item values is not a unit. */
  function ParseUnit(s: string): (r: Option<Unit>)
    ensures r.Some? <==> s == "inches" || s == "cm"
  {
    if s == "inches" then Some(Inches)
    else if s == "cm" then Some(Centimeters)
    else None
  }

  /** The stored value of every unit reads back as that unit. */
  lemma UnitRoundTrip(u: Unit)
    ensures ParseUnit(UnitValue(u)) == Some(u)
  {
  }

  /** Every value that reads back as a unit is that unit's stored value. */
  lemma UnitValueOfParsed(s: string)
    requires ParseUnit(s).Some?
    ensures UnitValue(ParseUnit(s).value) == s
  {
  }

  /** The form's `formData` state. */
  datatype FormData = FormData(
    customerName: string,
    phone: string,
    extraRequirements: string,
    measurements: map<string, string>)

  /** The record handed on when a booking is submitted. */
  datatype BookingRequest = BookingRequest(
    designId: string,
    designName: string,
    customerName: string,
    phone: string,
    extraRequirements: string,
    measurements: map<string, string>,
    unit: string,
    bookingDate: string,
    status: string)

  /** Why a submission was refused; the first failing check is the one reported. */
  datatype SubmitError = MissingRequiredFields | MissingMeasurements {
    function Message(): (s: string)
      ensures s != ""
    {
      match this
      case MissingRequiredFields => "Please fill in all required fields."
      case MissingMeasurements => "Please provide all required measurements."
    }
  }

  /** The two refusals are told apart by their alert texts. */
  lemma MessagesDiffer()
    ensures MissingRequiredFields.Message() != MissingMeasurements.Message()
  {
    assert MissingRequiredFields.Message()[7] == 'f';
    assert MissingMeasurements.Message()[7] == 'p';
  }

  /** The names of a design's measurements, as a set. */
  function NameSet(names: seq<string>): set<string> {
    set n | n in names
  }

  /**
   * The `reduce` that builds the initial measurements object: each name in
   * turn is set to the empty string.
   */
  function Seed(names: seq<string>): (m: map<string, string>)
    ensures m.Keys == NameSet(names)
    ensures forall k :: k in m ==> m[k] == ""
  {
    if names == [] then map[]
    else Seed(names[..|names| - 1])[names[|names| - 1] := ""]
  }

  /** The lookup that binds a design: the id must be present, non-empty and in the catalog. */
  function Lookup(catalog: map<string, Design>, designId: Option<string>): (r: Option<Design>)
    ensures r.Some? <==> designId.Some? && designId.value != "" && designId.value in catalog
    ensures r.Some? ==> r.value == catalog[designId.value]
  {
    match designId
    case Some(id) => if id != "" && id in catalog then Some(catalog[id]) else None
    case None => None
  }

  /** The keys whose value is still the empty string. */
  function EmptyMeasurements(measurements: map<string, string>): set<string> {
    set k | k in measurements && measurements[k] == ""
  }

  /**
   * The checks of the submit handler, in order: customer name and phone
   * first, then every measurement. Only the empty string counts as missing.
   */
  function Check(f: FormData): (r: Option<SubmitError>)
    ensures r == Some(MissingRequiredFields) <==> f.customerName == "" || f.phone == ""
    ensures r == Some(MissingMeasurements) <==>
      f.customerName != "" && f.phone != "" &&
      exists k :: k in f.measurements && f.measurements[k] == ""
    ensures r == None <==>
      f.customerName != "" && f.phone != "" &&
      forall k :: k in f.measurements ==> f.measurements[k] != ""
  {
    var empty := EmptyMeasurements(f.measurements);
    if f.customerName == "" || f.phone == "" then Some(MissingRequiredFields)
    else if |empty| > 0 then Some(MissingMeasurements)
    else
      assert forall k :: k in f.measurements ==> (k in empty <==> f.measurements[k] == "");
      None
  }

  /**
   * The submit handler: refuse with the first failing check, or build the
   * booking record for the bound design with status "Pending".
   */
  function Submit(design: Design, f: FormData, unit: Unit, bookingDate: string)
    : (r: Result<BookingRequest, SubmitError>)
    ensures r.Failure? <==> Check(f).Some?
    ensures r.Failure? ==> r.error == Check(f).value
    ensures r.Success? ==>
      && r.value.designId == design.id
      && r.value.designName == design.name
      && r.value.customerName == f.customerName
      && r.value.phone == f.phone
      && r.value.extraRequirements == f.extraRequirements
      && r.value.measurements == f.measurements
      && r.value.unit == UnitValue(unit)
      && r.value.bookingDate == bookingDate
      && r.value.status == "Pending"
  {
    match Check(f)
    case Some(e) => Failure(e)
    case None =>
      Success(BookingRequest(
        design.id, design.name,
        f.customerName, f.phone, f.extraRequirements, f.measurements,
        UnitValue(unit), bookingDate, "Pending"))
  }

  /** The name and phone check comes first: with either empty, the measurements are not examined. */
  lemma RequiredFieldsReportedFirst(f: FormData, g: FormData)
    requires f.customerName == g.customerName && f.phone == g.phone
    requires f.customerName == "" || f.phone == ""
    ensures Check(f) == Check(g) == Some(MissingRequiredFields)
  {
  }

  /** No trimming: whitespace-only name, phone and measurements pass. */
  lemma WhitespaceIsNotMissing(ms: seq<string>)
    ensures Check(FormData(" ", " ", "", map n | n in ms :: " ")) == None
  {
  }

  /** An empty measurement map passes the measurement check vacuously. */
  lemma NoMeasurementsPass(name: string, phone: string, extra: string)
    requires name != "" && phone != ""
    ensures Check(FormData(name, phone, extra, map[])) == None
  {
  }

  /** A freshly seeded form is refused for its measurements as soon as the design has one. */
  lemma SeededFormNeedsMeasurements(names: seq<string>, name: string, phone: string, extra: string)
    requires name != "" && phone != ""
    ensures Check(FormData(name, phone, extra, Seed(names))) ==
      if names == [] then None else Some(MissingMeasurements)
  {
    if names != [] {
      assert names[0] in Seed(names);
    }
  }

  /**
   * A form whose measurements are exactly the design's, all filled in, with a
   * name and a phone, is accepted: the booking is "Pending" for that design
   * and carries exactly the design's measurement names.
   */
  lemma FilledFormIsAccepted(design: Design, f: FormData, unit: Unit, date: string)
    requires f.customerName != "" && f.phone != ""
    requires f.measurements.Keys == NameSet(design.measurements)
    requires forall k :: k in f.measurements ==> f.measurements[k] != ""
    ensures Submit(design, f, unit, date).Success?
    ensures Submit(design, f, unit, date).value.status == "Pending"
    ensures Submit(design, f, unit, date).value.designId == design.id
    ensures Submit(design, f, unit, date).value.measurements.Keys == NameSet(design.measurements)
  {
  }

  /** The measurement handler called once per name, in order, with the matching value. */
  function FillAll(m: map<string, string>, names: seq<string>, values: seq<string>): (r: map<string, string>)
    requires |values| == |names|
    ensures r.Keys == m.Keys + NameSet(names)
    decreases |names|
  {
    if names == [] then m
    else FillAll(m[names[0] := values[0]], names[1..], values[1..])
  }

  /** Filling with non-empty values leaves no key empty that was not already filled. */
  lemma {:induction false} FillAllLeavesNoneEmpty(m: map<string, string>, names: seq<string>, values: seq<string>)
    requires |values| == |names|
    requires forall i :: 0 <= i < |values| ==> values[i] != ""
    requires forall k :: k in m && k !in names ==> m[k] != ""
    ensures forall k :: k in FillAll(m, names, values) ==> FillAll(m, names, values)[k] != ""
    decreases |names|
  {
    if names != [] {
      var m' := m[names[0] := values[0]];
      forall k | k in m' && k !in names[1..] ensures m'[k] != "" {
        if k != names[0] {
          assert k !in names;
        }
      }
      FillAllLeavesNoneEmpty(m', names[1..], values[1..]);
    }
  }

  /** Seeding, then filling in every measurement, makes the draft submittable. */
  lemma SeedThenFillIsSubmittable(design: Design, values: seq<string>, name: string, phone: string, extra: string)
    requires |values| == |design.measurements|
    requires forall i :: 0 <= i < |values| ==> values[i] != ""
    requires name != "" && phone != ""
    ensures Check(FormData(name, phone, extra, FillAll(Seed(design.measurements), design.measurements, values))) == None
    ensures FillAll(Seed(design.measurements), design.measurements, values).Keys == NameSet(design.measurements)
  {
    FillAllLeavesNoneEmpty(Seed(design.measurements), design.measurements, values);
  }

  /**
   * The booking page's state: the bound design (none yet, or after an unknown
   * id, which shows "Design not found"), the selected unit and the form data.
   */
  class BookingForm {
    var design: Option<Design>
    var unit: Unit
    var formData: FormData

    /** The measurement keys are the bound design's measurement names. */
    ghost predicate KeysMatchDesign()
      reads this
    {
      design.Some? ==> formData.measurements.Keys == NameSet(design.value.measurements)
    }

    /** The "Design not found" view is what renders. */
    predicate NotFound()
      reads this
    {
      design.None?
    }

    /** The page as mounted: no design, inches, all fields empty. */
    constructor ()
      ensures design == None && unit == Inches
      ensures formData == FormData("", "", "", map[])
      ensures NotFound() && KeysMatchDesign()
    {
      design := None;
      unit := Inches;
      formData := FormData("", "", "", map[]);
    }

    /**
     * The effect that runs when the route's design id changes: bind the design
     * and reseed the measurements, or leave everything as it was.
     */
    method LoadDesign(catalog: map<string, Design>, designId: Option<string>)
      modifies this
      ensures unit == old(unit)
      ensures Lookup(catalog, designId).Some? ==>
        && design == Lookup(catalog, designId)
        && formData == old(formData).(measurements := Seed(design.value.measurements))
        && KeysMatchDesign()
        && forall k :: k in formData.measurements ==> formData.measurements[k] == ""
      ensures Lookup(catalog, designId).None? ==>
        design == old(design) && formData == old(formData)
    {
      var found := Lookup(catalog, designId);
      if found.Some? {
        design := found;
        formData := formData.(measurements := Seed(found.value.measurements));
      }
    }

    method SetCustomerName(value: string)
      modifies this
      ensures formData == old(formData).(customerName := value)
      ensures design == old(design) && unit == old(unit)
    {
      formData := formData.(customerName := value);
    }

    method SetPhone(value: string)
      modifies this
      ensures formData == old(formData).(phone := value)
      ensures design == old(design) && unit == old(unit)
    {
      formData := formData.(phone := value);
    }

    method SetExtraRequirements(value: string)
      modifies this
      ensures formData == old(formData).(extraRequirements := value)
      ensures design == old(design) && unit == old(unit)
    {
      formData := formData.(extraRequirements := value);
    }

    /**
     * Sets one measurement. Every other key, the other fields, the design
     * and the unit are unchanged; for one of the design's own measurement
     * names the key set stays that of the design.
     */
    method ChangeMeasurement(measurement: string, value: string)
      modifies this
      ensures formData.measurements == old(formData.measurements)[measurement := value]
      ensures measurement in formData.measurements && formData.measurements[measurement] == value
      ensures forall k :: k in old(formData.measurements) && k != measurement ==>
        k in formData.measurements && formData.measurements[k] == old(formData.measurements)[k]
      ensures formData.customerName == old(formData.customerName)
      ensures formData.phone == old(formData.phone)
      ensures formData.extraRequirements == old(formData.extraRequirements)
      ensures design == old(design) && unit == old(unit)
      ensures old(KeysMatchDesign()) && design.Some? && measurement in design.value.measurements ==>
        KeysMatchDesign()
    {
      formData := formData.(measurements := formData.measurements[measurement := value]);
    }

    method SelectUnit(u: Unit)
      modifies this
      ensures unit == u
      ensures design == old(design) && formData == old(formData)
    {
      unit := u;
    }

    /** The submit handler; the form it belongs to is only rendered once a design is bound. */
    method HandleSubmit(bookingDate: string) returns (r: Result<BookingRequest, SubmitError>)
      requires design.Some?
      ensures r == Submit(design.value, formData, unit, bookingDate)
      ensures r.Success? ==> r.value.status == "Pending" && r.value.designId == design.value.id
      ensures r.Success? ==> r.value.unit == "inches" || r.value.unit == "cm"
      ensures KeysMatchDesign() && r.Success? ==>
        r.value.measurements.Keys == NameSet(design.value.measurements)
    {
      r := Submit(design.value, formData, unit, bookingDate);
    }
  }
}
