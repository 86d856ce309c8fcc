/** frontend/src/components/outbox/AddDestinationRowModal.tsx: the form that
    adds one destination row to a document's routing slip. It validates
    nothing; it stamps the caller's sequence number and the document's control
    number, invents a route number when none is typed, and leaves the
    received and acted-upon columns blank. The clock reading Date.now() is the
    parameter now. */
module AddDestinationRowModal {
  import opened Wrappers
  import opened Text
  import opened PyValue
  import opened Forms
  import JsNum
  import Destination

  /** The nine inputs, each a useState cell holding text. */
  const INPUTS: set<string> := {
    "routeNo", "destinationOffice", "employeeActionOfficer", "actionRequired", "dateReleased",
    "timeReleased", "dateRequired", "timeRequired", "remarks"}

  /** Omit<DocumentDestinationRow, 'id'>: the row onSave receives. */
  datatype NewRow = NewRow(
    documentControlNo: string, routeNo: string, sequenceNo: int,
    destinationOffice: string, employeeActionOfficer: string, actionRequired: string,
    dateReleased: string, timeReleased: string, dateRequired: string, timeRequired: string,
    dateReceived: string, timeReceived: string, remarks: string,
    actionTaken: string, remarksOnActionTaken: string, dateActedUpon: string, timeActedUpon: string)

  /** The route number of a new row: the typed one trimmed, or, when that is
      empty, "RN-" and the last six digits of the clock reading. */
  function RouteNumber(typed: string, now: nat): string {
    var t := Trim(typed);
    if t != "" then t else Stamp(now)
  }

  /** `RN-${Date.now().toString().slice(-6)}` */
  function Stamp(now: nat): string {
    "RN-" + TakeLast(NatToString(now), 6)
  }

  /** A typed route number is kept, with the white space around it removed. */
  lemma TypedRouteKept(typed: string, now: nat)
    requires !IsBlank(typed)
    ensures var r := RouteNumber(typed, now);
      r == Trim(typed) && r != "" && !IsJsSpace(r[0]) && !IsJsSpace(r[|r| - 1])
  {
    BlankIffTrimmedEmpty(typed);
    StripCuts(IsJsSpace, typed);
  }

  /** A route number left blank is generated: "RN-" and six digits that are
      the clock reading modulo one million, once the clock has six digits. */
  lemma GeneratedRoute(typed: string, now: nat)
    requires IsBlank(typed)
    ensures var r := RouteNumber(typed, now);
      |r| > 3 && r[..3] == "RN-" && AllDigits(r[3..]) && DigitsValue(r[3..]) == now % 1000000 &&
      (now >= 100000 ==> |r| == 9)
  {
    BlankIffTrimmedEmpty(typed);
    StampShape(now);
  }

  lemma StampShape(now: nat)
    ensures var r := Stamp(now);
      |r| > 3 && r[..3] == "RN-" && AllDigits(r[3..]) && DigitsValue(r[3..]) == now % 1000000 &&
      (now >= 100000 ==> |r| == 9)
  {
    var d := TakeLast(NatToString(now), 6);
    LastSixDigits(now);
    var r := Stamp(now);
    assert r == "RN-" + d;
    assert r[3..] == d;
  }

  /** slice(-6) of the decimal notation: the number modulo one million, in
      six digits once the number has as many. */
  lemma LastSixDigits(now: nat)
    ensures var d := TakeLast(NatToString(now), 6);
      d != "" && AllDigits(d) && DigitsValue(d) == now % 1000000 && (now >= 100000 ==> |d| == 6)
  {
    var s := NatToString(now);
    Pow10Six();
    DigitsBound(s);
    if |s| <= 6 {
      Pow10Mono(|s|, 6);
      SmallMod(now, 1000000);
    } else {
      SuffixValue(s, 6);
    }
    if now >= 100000 && |s| < 6 {
      Pow10Mono(|s|, 5);
    }
  }

  lemma Pow10Six()
    ensures JsNum.Pow10(5) == 100000 && JsNum.Pow10(6) == 1000000
  {
    assert JsNum.Pow10(3) == 1000;
  }

  lemma {:induction false} Pow10Mono(a: nat, b: nat)
    requires a <= b
    ensures JsNum.Pow10(a) <= JsNum.Pow10(b)
  {
    if a < b {
      Pow10Mono(a, b - 1);
    }
  }

  lemma SmallMod(n: nat, m: nat)
    requires n < m
    ensures n % m == n
  {
  }

  /** A string of k digits denotes a number below 10^k. */
  lemma {:induction false} DigitsBound(s: string)
    requires AllDigits(s)
    ensures DigitsValue(s) < JsNum.Pow10(|s|)
  {
    if s != [] {
      DigitsBound(s[..|s| - 1]);
    }
  }

  /** The last k digits of a decimal string denote its value modulo 10^k. */
  lemma {:induction false} SuffixValue(s: string, k: nat)
    requires AllDigits(s) && k <= |s|
    ensures AllDigits(s[|s| - k..]) && DigitsValue(s[|s| - k..]) == DigitsValue(s) % JsNum.Pow10(k)
  {
    if k == 0 {
      assert s[|s|..] == "";
    } else {
      var t := s[..|s| - 1];
      var u := s[|s| - k..];
      assert u[..|u| - 1] == t[|t| - (k - 1)..];
      assert u[|u| - 1] == s[|s| - 1];
      SuffixValue(t, k - 1);
      var d := s[|s| - 1] as int - '0' as int;
      ShiftMod(DigitsValue(t), d, JsNum.Pow10(k - 1));
    }
  }

  /** Appending digit d to a number appends it to the number's remainder. */
  lemma ShiftMod(a: nat, d: nat, p: nat)
    requires d < 10 && p >= 1
    ensures (a * 10 + d) % (10 * p) == (a % p) * 10 + d
  {
    var q := a / p;
    var r := a % p;
    assert a == q * p + r;
    assert a * 10 + d == q * (10 * p) + (r * 10 + d);
    assert 0 <= r * 10 + d < 10 * p;
    ModOfSplit(a * 10 + d, q, 10 * p, r * 10 + d);
  }

  lemma ModOfSplit(x: nat, q: nat, m: nat, r: nat)
    requires m >= 1 && r < m && x == q * m + r
    ensures x % m == r
  {
    var q' := x / m;
    var r' := x % m;
    assert q' * m + r' == q * m + r;
    if q' < q {
      assert (q - q') * m == q * m - q' * m;
      MulAtLeast(q - q', m);
    } else if q' > q {
      assert (q' - q) * m == q' * m - q * m;
      MulAtLeast(q' - q, m);
    }
  }

  lemma MulAtLeast(k: int, m: int)
    requires k >= 1 && m >= 0
    ensures k * m >= m
  {
    assert k * m == (k - 1) * m + m;
  }

  /** Whatever is typed, a new row's route number neither is blank nor has
      white space around it. */
  lemma RouteNeverBlank(typed: string, now: nat)
    ensures var r := RouteNumber(typed, now);
      r != "" && Trim(r) == r
  {
    var r := RouteNumber(typed, now);
    if !IsBlank(typed) {
      TypedRouteKept(typed, now);
    } else {
      GeneratedRoute(typed, now);
      assert r[0] == "RN-"[0];
      assert r[|r| - 1] == r[3..][|r| - 4];
    }
    TrimKeepsTrimmed(r);
  }

  lemma TrimKeepsTrimmed(r: string)
    requires r != "" && !IsJsSpace(r[0]) && !IsJsSpace(r[|r| - 1])
    ensures Trim(r) == r
  {
    assert "" + r + "" == r;
    StripPadded(IsJsSpace, "", r, "");
  }

  /** A route number saved once is saved again unchanged, whatever the clock
      then says. */
  lemma RouteStable(typed: string, now: nat, later: nat)
    ensures RouteNumber(RouteNumber(typed, now), later) == RouteNumber(typed, now)
  {
    RouteNeverBlank(typed, now);
  }

  /** The object handleSubmit passes to onSave. */
  function Row(controlNo: string, sequenceNo: int, inputs: Form, now: nat): NewRow {
    NewRow(
      controlNo, RouteNumber(Field(inputs, "routeNo"), now), sequenceNo,
      Field(inputs, "destinationOffice"), Field(inputs, "employeeActionOfficer"), Field(inputs, "actionRequired"),
      Field(inputs, "dateReleased"), Field(inputs, "timeReleased"),
      Field(inputs, "dateRequired"), Field(inputs, "timeRequired"),
      "", "", Field(inputs, "remarks"), "", "", "", "")
  }

  /** The nine inputs a row fills when read back into the form. */
  function Inputs(row: NewRow): (r: Form)
    ensures r.Keys == INPUTS
  {
    map[
      "routeNo" := row.routeNo, "destinationOffice" := row.destinationOffice,
      "employeeActionOfficer" := row.employeeActionOfficer, "actionRequired" := row.actionRequired,
      "dateReleased" := row.dateReleased, "timeReleased" := row.timeReleased,
      "dateRequired" := row.dateRequired, "timeRequired" := row.timeRequired, "remarks" := row.remarks]
  }

  /** A new row carries the document's control number and the caller's
      sequence number, and leaves the six received and acted-upon columns
      empty. */
  lemma RowStamped(controlNo: string, sequenceNo: int, inputs: Form, now: nat)
    ensures var r := Row(controlNo, sequenceNo, inputs, now);
      r.documentControlNo == controlNo && r.sequenceNo == sequenceNo &&
      r.dateReceived == "" && r.timeReceived == "" && r.actionTaken == "" &&
      r.remarksOnActionTaken == "" && r.dateActedUpon == "" && r.timeActedUpon == ""
  {
  }

  /** A new row holds every input as typed, the route number aside. */
  lemma RowInputs(controlNo: string, sequenceNo: int, inputs: Form, now: nat)
    ensures var r := Row(controlNo, sequenceNo, inputs, now);
      Inputs(r) == Pick(inputs, INPUTS)["routeNo" := r.routeNo]
  {
    var r := Row(controlNo, sequenceNo, inputs, now);
    var a := Inputs(r);
    var b := Pick(inputs, INPUTS)["routeNo" := r.routeNo];
    forall k | k in INPUTS
      ensures a[k] == b[k]
    {
      InputsRead(r);
    }
  }

  /** A saved row, read back into the form and saved again, is the same row. */
  lemma ResavedRow(controlNo: string, sequenceNo: int, inputs: Form, now: nat, later: nat)
    ensures var r := Row(controlNo, sequenceNo, inputs, now);
      Row(controlNo, sequenceNo, Inputs(r), later) == r
  {
    var r := Row(controlNo, sequenceNo, inputs, now);
    InputsRead(r);
    RouteStable(Field(inputs, "routeNo"), now, later);
  }

  lemma InputsRead(row: NewRow)
    ensures var f := Inputs(row);
      Field(f, "routeNo") == row.routeNo && Field(f, "destinationOffice") == row.destinationOffice &&
      Field(f, "employeeActionOfficer") == row.employeeActionOfficer &&
      Field(f, "actionRequired") == row.actionRequired && Field(f, "dateReleased") == row.dateReleased &&
      Field(f, "timeReleased") == row.timeReleased && Field(f, "dateRequired") == row.dateRequired &&
      Field(f, "timeRequired") == row.timeRequired && Field(f, "remarks") == row.remarks
  {
  }

  /** The JSON body the row would arrive as at the destination create view. */
  function RowBody(row: NewRow): (d: Dict)
    ensures "documentSourceId" !in d
    ensures "documentControlNo" in d && d["documentControlNo"] == Str(row.documentControlNo)
    ensures "routeNo" in d && d["routeNo"] == Str(row.routeNo)
  {
    map[
      "documentControlNo" := Str(row.documentControlNo), "routeNo" := Str(row.routeNo),
      "sequenceNo" := Int(row.sequenceNo), "destinationOffice" := Str(row.destinationOffice),
      "employeeActionOfficer" := Str(row.employeeActionOfficer), "actionRequired" := Str(row.actionRequired),
      "dateReleased" := Str(row.dateReleased), "timeReleased" := Str(row.timeReleased),
      "dateRequired" := Str(row.dateRequired), "timeRequired" := Str(row.timeRequired),
      "dateReceived" := Str(row.dateReceived), "timeReceived" := Str(row.timeReceived),
      "remarks" := Str(row.remarks), "actionTaken" := Str(row.actionTaken),
      "remarksOnActionTaken" := Str(row.remarksOnActionTaken), "dateActedUpon" := Str(row.dateActedUpon),
      "timeActedUpon" := Str(row.timeActedUpon)]
  }

  /** The row has no owning document id, so the create view refuses it as it
      stands; once the caller adds a non-null owner, the view accepts any row
      whose document has a control number, the route number never being blank. */
  lemma RowNeedsOwner(controlNo: string, sequenceNo: int, inputs: Form, now: nat, owner: Value)
    requires owner != Null && controlNo != ""
    ensures var b := RowBody(Row(controlNo, sequenceNo, inputs, now));
      Destination.CreatePayload(b) == Err(Destination.SOURCE_ID_REQUIRED) &&
      Destination.CreatePayload(b["documentSourceId" := owner]).Ok?
  {
    RouteNeverBlank(Field(inputs, "routeNo"), now);
  }

  class Modal {
    var inputs: Form

    constructor()
      ensures inputs == Blank(INPUTS)
    {
      inputs := Blank(INPUTS);
    }

    /** One of the nine setters, as an input's onChange calls it. */
    method Change(name: string, value: string)
      requires name in INPUTS
      modifies this
      ensures inputs == old(inputs)[name := value]
    {
      inputs := inputs[name := value];
    }

    /** handleSubmit, for the document the modal shows: the row is built and
        every input is reset to ''. */
    method Submit(document: Form, nextSequenceNo: int, now: nat) returns (row: NewRow)
      modifies this
      ensures row == Row(Field(document, "documentControlNo"), nextSequenceNo, old(inputs), now)
      ensures inputs == Blank(INPUTS)
    {
      row := Row(Field(document, "documentControlNo"), nextSequenceNo, inputs, now);
      inputs := Blank(INPUTS);
    }

    /** handleClose: every input is reset to '' and nothing is saved. */
    method Close()
      modifies this
      ensures inputs == Blank(INPUTS)
    {
      inputs := Blank(INPUTS);
    }
  }
}
