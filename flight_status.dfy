/** The decisions the `/whereisryan` command handler makes once the VATSIM
    data feed has been fetched: which pilot is the configured one, how long
    that pilot has been connected, how a filed route is shortened, and which
    fields the status embed shows, with which fallback texts. */
module FlightStatus {
  import opened Decimal

  datatype Option<T> = None | Some(value: T)

  /** The filed flight plan of a pilot record in the data feed. */
  datatype FlightPlan = FlightPlan(
    departure: string,
    arrival: string,
    aircraftShort: string,
    aircraftFaa: string,
    altitude: string,
    route: string)

  /** A pilot record of the data feed. Numbers that the handler only
      renders (altitude with `toLocaleString`, ground speed, heading, and
      latitude and longitude with `toFixed(4)`) are kept as their rendered
      text; the logon time is kept as milliseconds since the epoch. */
  datatype Pilot = Pilot(
    cid: nat,
    callsign: string,
    altitudeText: string,
    groundspeedText: string,
    headingText: string,
    transponder: string,
    latitudeText: string,
    longitudeText: string,
    logonMs: int,
    flightPlan: Option<FlightPlan>)

  /** One field of a Discord embed. */
  datatype Field = Field(name: string, value: string, inline: bool)

  /** A string, or the fallback when the string is empty: JavaScript's
      or-operator on strings, for which only the empty string is falsy. */
  function OrElse(a: string, fallback: string): (r: string)
    ensures a != "" ==> r == a
    ensures a == "" ==> r == fallback
    ensures r != "" <==> (a != "" || fallback != "")
  {
    if a != "" then a else fallback
  }

  // ---------------------------------------------------------------------
  // Pilot lookup

  /** A pilot is the configured one when the decimal rendering of its CID
      equals the configured CID string exactly. */
  predicate CidMatches(p: Pilot, target: string) {
    NatToString(p.cid) == target
  }

  /** The first pilot, in feed order, whose rendered CID is the target. */
  function FindPilot(pilots: seq<Pilot>, target: string): (r: Option<Pilot>)
    ensures r.None? <==> forall i :: 0 <= i < |pilots| ==> !CidMatches(pilots[i], target)
    ensures r.Some? ==> r.value in pilots && CidMatches(r.value, target)
  {
    if pilots == [] then None
    else if CidMatches(pilots[0], target) then Some(pilots[0])
    else FindPilot(pilots[1..], target)
  }

  /** The pilot found is the one at the first matching position. */
  lemma {:induction false} FindPilotIsFirst(pilots: seq<Pilot>, target: string, k: nat)
    requires k < |pilots| && CidMatches(pilots[k], target)
    requires forall j :: 0 <= j < k ==> !CidMatches(pilots[j], target)
    ensures FindPilot(pilots, target) == Some(pilots[k])
  {
    if k > 0 {
      FindPilotIsFirst(pilots[1..], target, k - 1);
    }
  }

  /** When the configured CID is the numeral of a number, matching by
      rendered CID is matching by number. */
  lemma CidMatchesNumber(p: Pilot, n: nat)
    ensures CidMatches(p, NatToString(n)) <==> p.cid == n
  {
    if CidMatches(p, NatToString(n)) {
      NatToStringInjective(p.cid, n);
    }
  }

  /** A configured CID that is not a canonical numeral (empty, with a sign,
      spaces or a leading zero) never matches anybody. */
  lemma NonNumeralNeverMatches(pilots: seq<Pilot>, target: string)
    requires target == "" || !AllDigits(target) || (|target| > 1 && target[0] == '0')
    ensures FindPilot(pilots, target) == None
  {
  }

  // ---------------------------------------------------------------------
  // Flight time

  /** Milliseconds in a minute and in an hour. */
  const MsPerMinute: int := 60000
  const MsPerHour: int := 3600000

  /** JavaScript's `a % b`: the remainder of division truncated toward zero,
      which takes the sign of the dividend. */
  function JsRemainder(a: int, b: int): (r: int)
    requires b > 0
    ensures a >= 0 ==> 0 <= r < b
    ensures a < 0 ==> -b < r <= 0
  {
    if a >= 0 then a % b else -((-a) % b)
  }

  /** Division truncated toward zero, the quotient that goes with `%`. */
  function TruncatedQuotient(a: int, b: int): int
    requires b > 0
  {
    if a >= 0 then a / b else -((-a) / b)
  }

  /** The truncated remainder is what is left of the dividend once the
      truncated quotient's multiple of the divisor is taken away. */
  lemma JsRemainderDivision(a: int, b: int)
    requires b > 0
    ensures a == TruncatedQuotient(a, b) * b + JsRemainder(a, b)
  {
  }

  datatype FlightTime = FlightTime(hours: int, minutes: int)

  /** The elapsed time as whole hours, rounded down, and whole minutes of
      the remainder left by truncated division by an hour, also rounded
      down. Rounding a quotient by a positive divisor down is Dafny's
      Euclidean division. */
  function SplitFlightTime(elapsedMs: int): FlightTime {
    FlightTime(elapsedMs / MsPerHour, JsRemainder(elapsedMs, MsPerHour) / MsPerMinute)
  }

  /** The elapsed time between logon and now, as the handler computes it. */
  function Elapsed(logonMs: int, nowMs: int): int {
    nowMs - logonMs
  }

  /** The hours, the letter h, a space, the minutes and the letter m. */
  function FlightTimeText(t: FlightTime): string {
    IntToString(t.hours) + "h " + IntToString(t.minutes) + "m"
  }

  /** For a non-negative elapsed time the split is whole hours and whole
      minutes of the remainder, both truncated. */
  lemma FlightTimeBounds(ms: int)
    requires ms >= 0
    ensures var t := SplitFlightTime(ms);
      t.hours >= 0 && 0 <= t.minutes < 60 &&
      t.hours * MsPerHour + t.minutes * MsPerMinute <= ms < t.hours * MsPerHour + (t.minutes + 1) * MsPerMinute
  {
  }

  /** The bounds above determine the split: it is the only pair of whole
      hours and minutes below 60 that brackets the elapsed time. */
  lemma FlightTimeUnique(ms: int, h: int, m: int)
    requires ms >= 0 && 0 <= m < 60
    requires h * MsPerHour + m * MsPerMinute <= ms < h * MsPerHour + (m + 1) * MsPerMinute
    ensures SplitFlightTime(ms) == FlightTime(h, m)
  {
  }

  /** A logon time in the future gives negative hours and minutes between
      -60 and 0, since `%` keeps the sign of the dividend. */
  lemma FlightTimeNegative(ms: int)
    requires ms < 0
    ensures var t := SplitFlightTime(ms);
      t.hours < 0 && -60 <= t.minutes <= 0
  {
  }

  /** Distinct hour and minute pairs render as distinct texts. */
  lemma FlightTimeTextInjective(t1: FlightTime, t2: FlightTime)
    requires FlightTimeText(t1) == FlightTimeText(t2)
    ensures t1 == t2
  {
    var h1, m1 := IntToString(t1.hours), IntToString(t1.minutes);
    var h2, m2 := IntToString(t2.hours), IntToString(t2.minutes);
    IntToStringOmits(t1.hours, 'h');
    IntToStringOmits(t2.hours, 'h');
    var rest1, rest2 := " " + m1 + "m", " " + m2 + "m";
    assert FlightTimeText(t1) == h1 + ['h'] + rest1;
    assert FlightTimeText(t2) == h2 + ['h'] + rest2;
    SplitAtMarker(h1, rest1, h2, rest2, 'h');
    assert m1 == rest1[1..|rest1| - 1];
    assert m2 == rest2[1..|rest2| - 1];
    IntToStringInjective(t1.hours, t2.hours);
    IntToStringInjective(t1.minutes, t2.minutes);
  }

  /** The rendered flight time gives back both the hours and the minutes,
      also when the logon time lies in the future. */
  lemma FlightTimeTextDetermines(ms1: int, ms2: int)
    requires FlightTimeText(SplitFlightTime(ms1)) == FlightTimeText(SplitFlightTime(ms2))
    ensures SplitFlightTime(ms1) == SplitFlightTime(ms2)
  {
    FlightTimeTextInjective(SplitFlightTime(ms1), SplitFlightTime(ms2));
  }

  // ---------------------------------------------------------------------
  // Route truncation

  const MaxRouteLength: nat := 200
  const Ellipsis: string := "..."

  /** A route longer than 200 characters is cut to its first 200 and marked
      with an ellipsis; a shorter one is shown as filed. */
  function TruncateRoute(route: string): (r: string)
    ensures |route| <= MaxRouteLength ==> r == route
    ensures |route| > MaxRouteLength ==>
      |r| == MaxRouteLength + |Ellipsis| && r[..MaxRouteLength] == route[..MaxRouteLength] &&
      r[MaxRouteLength..] == Ellipsis
  {
    if |route| > MaxRouteLength then route[..MaxRouteLength] + Ellipsis else route
  }

  /** The shown route is never longer than 203 characters, is longer than
      200 exactly when the filed one is, and is empty only when the filed
      one is. */
  lemma TruncateRouteLength(route: string)
    ensures |TruncateRoute(route)| <= MaxRouteLength + |Ellipsis|
    ensures |TruncateRoute(route)| > MaxRouteLength <==> |route| > MaxRouteLength
    ensures TruncateRoute(route) == "" <==> route == ""
  {
  }

  /** Shortening an already shortened route changes nothing. */
  lemma TruncateRouteIdempotent(route: string)
    ensures TruncateRoute(TruncateRoute(route)) == TruncateRoute(route)
  {
  }

  // ---------------------------------------------------------------------
  // Field values with their fallbacks

  const NotAvailable: string := "N/A"
  const NoFlightPlan: string := "No flight plan filed"
  const UnknownAircraft: string := "Unknown"

  /** The departure and the arrival, each "N/A" when empty, joined by an
      arrow; "No flight plan filed" when there is no plan. */
  function RouteSummary(plan: Option<FlightPlan>): string {
    match plan
    case None => NoFlightPlan
    case Some(fp) => OrElse(fp.departure, NotAvailable) + " -> " + OrElse(fp.arrival, NotAvailable)
  }

  /** The summary reads "No flight plan filed" exactly when no plan is filed:
      any summary of a plan holds the arrow. */
  lemma RouteSummaryNoPlanIff(plan: Option<FlightPlan>)
    ensures RouteSummary(plan) == NoFlightPlan <==> plan.None?
    ensures plan.Some? ==> '>' in RouteSummary(plan)
  {
    if plan.Some? {
      var d := OrElse(plan.value.departure, NotAvailable);
      var s := RouteSummary(plan);
      assert s[|d| + 2] == '>';
      assert '>' !in NoFlightPlan;
    }
  }

  /** A filed plan whose departure is missing is summarised with "N/A" in
      front, one whose arrival is missing with "N/A" at the end. */
  lemma RouteSummaryFallbacks(fp: FlightPlan)
    ensures fp.departure == "" ==> RouteSummary(Some(fp))[..3] == NotAvailable
    ensures fp.departure != "" ==> RouteSummary(Some(fp))[..|fp.departure|] == fp.departure
    ensures fp.arrival == "" ==> RouteSummary(Some(fp))[|RouteSummary(Some(fp))| - 3..] == NotAvailable
    ensures fp.arrival != "" ==>
      RouteSummary(Some(fp))[|RouteSummary(Some(fp))| - |fp.arrival|..] == fp.arrival
  {
  }

  /** The short aircraft code, else the FAA code, else "Unknown". */
  function AircraftText(plan: Option<FlightPlan>): (r: string)
    ensures r != ""
    ensures plan.None? ==> r == UnknownAircraft
    ensures plan.Some? && plan.value.aircraftShort != "" ==> r == plan.value.aircraftShort
    ensures plan.Some? && plan.value.aircraftShort == "" && plan.value.aircraftFaa != "" ==> r == plan.value.aircraftFaa
    ensures plan.Some? && plan.value.aircraftShort == "" && plan.value.aircraftFaa == "" ==> r == UnknownAircraft
  {
    match plan
    case None => UnknownAircraft
    case Some(fp) => OrElse(OrElse(fp.aircraftShort, fp.aircraftFaa), UnknownAircraft)
  }

  /** The transponder code, or "N/A" when it is empty. */
  function TransponderText(transponder: string): (r: string)
    ensures r != ""
    ensures transponder != "" ==> r == transponder
    ensures transponder == "" ==> r == NotAvailable
  {
    OrElse(transponder, NotAvailable)
  }

  /** Whether the optional fields are added: a plan is filed and the
      corresponding entry of it is non-empty. */
  predicate HasFiledAltitude(plan: Option<FlightPlan>) {
    plan.Some? && plan.value.altitude != ""
  }

  predicate HasFiledRoute(plan: Option<FlightPlan>) {
    plan.Some? && plan.value.route != ""
  }

  // ---------------------------------------------------------------------
  // The field list of the status embed

  const MandatoryNames: seq<string> :=
    ["Route", "Aircraft", "Altitude", "Ground Speed", "Heading", "Transponder", "Flight Time"]

  /** The seven fields the embed always shows, added in one call. */
  function MandatoryFields(p: Pilot, nowMs: int): (fs: seq<Field>)
    ensures |fs| == |MandatoryNames|
  {
    [ Field("Route", RouteSummary(p.flightPlan), false),
      Field("Aircraft", AircraftText(p.flightPlan), true),
      Field("Altitude", p.altitudeText + " ft", true),
      Field("Ground Speed", p.groundspeedText + " kts", true),
      Field("Heading", p.headingText + "°", true),
      Field("Transponder", TransponderText(p.transponder), true),
      Field("Flight Time", FlightTimeText(SplitFlightTime(Elapsed(p.logonMs, nowMs))), true) ]
  }

  /** The "Filed Altitude" field when an altitude is filed, else nothing. */
  function FiledAltitudeFields(plan: Option<FlightPlan>): (fs: seq<Field>)
    ensures |fs| <= 1
  {
    if HasFiledAltitude(plan) then [Field("Filed Altitude", plan.value.altitude, true)] else []
  }

  /** The "Filed Route" field, holding the shortened route or "N/A" when
      that is empty, when a route is filed; else nothing. */
  function FiledRouteFields(plan: Option<FlightPlan>): (fs: seq<Field>)
    ensures |fs| <= 1
  {
    if HasFiledRoute(plan) then
      [Field("Filed Route", OrElse(TruncateRoute(plan.value.route), NotAvailable), false)]
    else []
  }

  /** All fields of the status embed, in the order the builder receives them. */
  function StatusFields(p: Pilot, nowMs: int): seq<Field> {
    MandatoryFields(p, nowMs) + FiledAltitudeFields(p.flightPlan) + FiledRouteFields(p.flightPlan)
  }

  function FieldNames(fs: seq<Field>): (names: seq<string>)
    ensures |names| == |fs|
    ensures forall i :: 0 <= i < |fs| ==> names[i] == fs[i].name
  {
    if fs == [] then [] else [fs[0].name] + FieldNames(fs[1..])
  }

  lemma {:induction false} FieldNamesAppend(a: seq<Field>, b: seq<Field>)
    ensures FieldNames(a + b) == FieldNames(a) + FieldNames(b)
  {
  }

  /** The order of the fields: the seven mandatory ones first, then "Filed
      Altitude" when an altitude is filed, then "Filed Route" when a route
      is filed. */
  lemma StatusFieldNames(p: Pilot, nowMs: int)
    ensures FieldNames(StatusFields(p, nowMs)) ==
      MandatoryNames
      + (if HasFiledAltitude(p.flightPlan) then ["Filed Altitude"] else [])
      + (if HasFiledRoute(p.flightPlan) then ["Filed Route"] else [])
  {
    var m, a, r := MandatoryFields(p, nowMs), FiledAltitudeFields(p.flightPlan), FiledRouteFields(p.flightPlan);
    FieldNamesAppend(m + a, r);
    FieldNamesAppend(m, a);
    MandatoryFieldNames(p, nowMs);
  }

  /** Neither optional field name is the name of a mandatory field. */
  lemma OptionalNamesNotMandatory()
    ensures "Filed Altitude" !in MandatoryNames && "Filed Route" !in MandatoryNames
  {
  }

  /** "Filed Altitude" is shown exactly when an altitude is filed, "Filed
      Route" exactly when a route is filed. */
  lemma OptionalFieldsPresence(p: Pilot, nowMs: int)
    ensures "Filed Altitude" in FieldNames(StatusFields(p, nowMs)) <==> HasFiledAltitude(p.flightPlan)
    ensures "Filed Route" in FieldNames(StatusFields(p, nowMs)) <==> HasFiledRoute(p.flightPlan)
  {
    StatusFieldNames(p, nowMs);
    OptionalNamesNotMandatory();
    assert "Filed Altitude" != "Filed Route";
  }

  lemma MandatoryFieldNames(p: Pilot, nowMs: int)
    ensures FieldNames(MandatoryFields(p, nowMs)) == MandatoryNames
  {
  }

  /** The value of the first field of the given name, as a reader of the
      embed finds it, or none when no field has that name. */
  function FieldValue(fs: seq<Field>, name: string): (r: Option<string>)
    ensures r.None? <==> name !in FieldNames(fs)
  {
    if fs == [] then None
    else if fs[0].name == name then Some(fs[0].value)
    else (assert FieldNames(fs) == [fs[0].name] + FieldNames(fs[1..]); FieldValue(fs[1..], name))
  }

  lemma {:induction false} FieldValueAppend(a: seq<Field>, b: seq<Field>, name: string)
    ensures FieldValue(a + b, name) == if name in FieldNames(a) then FieldValue(a, name) else FieldValue(b, name)
  {
    if a == [] {
      assert a + b == b;
    } else {
      assert (a + b)[1..] == a[1..] + b;
      assert FieldNames(a) == [a[0].name] + FieldNames(a[1..]);
      FieldValueAppend(a[1..], b, name);
    }
  }

  /** A field that has no namesake before it is the one found by name. */
  lemma {:induction false} FieldValueAt(fs: seq<Field>, k: nat)
    requires k < |fs|
    requires forall j :: 0 <= j < k ==> fs[j].name != fs[k].name
    ensures FieldValue(fs, fs[k].name) == Some(fs[k].value)
  {
    if k > 0 {
      assert fs[1..][k - 1] == fs[k];
      FieldValueAt(fs[1..], k - 1);
    }
  }

  /** The seven mandatory names differ already in their first two letters. */
  lemma MandatoryNamesDistinct()
    ensures forall i, j :: 0 <= i < j < |MandatoryNames| ==> MandatoryNames[i] != MandatoryNames[j]
  {
    var heads := ["Ro", "Ai", "Al", "Gr", "He", "Tr", "Fl"];
    assert forall i :: 0 <= i < |MandatoryNames| ==> MandatoryNames[i][..2] == heads[i];
    forall i, j | 0 <= i < j < |MandatoryNames|
      ensures MandatoryNames[i] != MandatoryNames[j]
    {
      assert heads[i][0] != heads[j][0] || heads[i][1] != heads[j][1];
    }
  }

  /** The k-th mandatory field is the one found under the k-th name. */
  lemma MandatoryFieldValueAt(p: Pilot, nowMs: int, k: nat)
    requires k < |MandatoryNames|
    ensures FieldValue(StatusFields(p, nowMs), MandatoryNames[k]) == Some(MandatoryFields(p, nowMs)[k].value)
  {
    var fs := StatusFields(p, nowMs);
    var m := MandatoryFields(p, nowMs);
    MandatoryFieldNames(p, nowMs);
    MandatoryNamesDistinct();
    assert forall j :: 0 <= j < |m| ==> fs[j] == m[j];
    assert forall j :: 0 <= j < |m| ==> m[j].name == FieldNames(m)[j];
    FieldValueAt(fs, k);
  }

  /** Each mandatory field of the status embed carries the value its name
      promises: the route summary, the aircraft, the rendered altitude,
      ground speed and heading, the transponder code and the flight time. */
  lemma MandatoryFieldValues(p: Pilot, nowMs: int)
    ensures FieldValue(StatusFields(p, nowMs), "Route") == Some(RouteSummary(p.flightPlan))
    ensures FieldValue(StatusFields(p, nowMs), "Aircraft") == Some(AircraftText(p.flightPlan))
    ensures FieldValue(StatusFields(p, nowMs), "Altitude") == Some(p.altitudeText + " ft")
    ensures FieldValue(StatusFields(p, nowMs), "Ground Speed") == Some(p.groundspeedText + " kts")
    ensures FieldValue(StatusFields(p, nowMs), "Heading") == Some(p.headingText + "°")
    ensures FieldValue(StatusFields(p, nowMs), "Transponder") == Some(TransponderText(p.transponder))
    ensures FieldValue(StatusFields(p, nowMs), "Flight Time") ==
      Some(FlightTimeText(SplitFlightTime(Elapsed(p.logonMs, nowMs))))
  {
    MandatoryFieldValueAt(p, nowMs, 0);
    MandatoryFieldValueAt(p, nowMs, 1);
    MandatoryFieldValueAt(p, nowMs, 2);
    MandatoryFieldValueAt(p, nowMs, 3);
    MandatoryFieldValueAt(p, nowMs, 4);
    MandatoryFieldValueAt(p, nowMs, 5);
    MandatoryFieldValueAt(p, nowMs, 6);
  }

  /** "Filed Altitude" carries the filed altitude when one is filed, and
      "Filed Route" the shortened filed route when one is filed. */
  lemma OptionalFieldValues(p: Pilot, nowMs: int)
    ensures FieldValue(StatusFields(p, nowMs), "Filed Altitude") ==
      if HasFiledAltitude(p.flightPlan) then Some(p.flightPlan.value.altitude) else None
    ensures FieldValue(StatusFields(p, nowMs), "Filed Route") ==
      if HasFiledRoute(p.flightPlan) then Some(TruncateRoute(p.flightPlan.value.route)) else None
  {
    var m, a, r := MandatoryFields(p, nowMs), FiledAltitudeFields(p.flightPlan), FiledRouteFields(p.flightPlan);
    MandatoryFieldNames(p, nowMs);
    OptionalNamesNotMandatory();
    OptionalFieldsPresence(p, nowMs);
    FieldValueAppend(m, a + r, "Filed Altitude");
    FieldValueAppend(m, a + r, "Filed Route");
    FieldValueAppend(a, r, "Filed Altitude");
    FieldValueAppend(a, r, "Filed Route");
    assert m + a + r == m + (a + r);
    if HasFiledRoute(p.flightPlan) {
      TruncateRouteLength(p.flightPlan.value.route);
    }
  }

  /** The status embed always holds the mandatory fields, so it has between
      seven and nine fields. */
  lemma StatusFieldCount(p: Pilot, nowMs: int)
    ensures 7 <= |StatusFields(p, nowMs)| <= 9
    ensures StatusFields(p, nowMs)[..7] == MandatoryFields(p, nowMs)
  {
  }

  /** Only the route summary and the filed route take a full row. */
  lemma StatusFieldInline(p: Pilot, nowMs: int, i: nat)
    requires i < |StatusFields(p, nowMs)|
    ensures StatusFields(p, nowMs)[i].inline <==>
      StatusFields(p, nowMs)[i].name != "Route" && StatusFields(p, nowMs)[i].name != "Filed Route"
  {
  }

  /** Every field value is non-empty (an embed field without a value is not
      sendable), and the filed route field shows the shortened route, so the
      "N/A" fallback of the filed route is never taken. */
  lemma StatusFieldValues(p: Pilot, nowMs: int)
    ensures forall i :: 0 <= i < |StatusFields(p, nowMs)| ==> StatusFields(p, nowMs)[i].value != ""
    ensures HasFiledRoute(p.flightPlan) ==>
      StatusFields(p, nowMs)[|StatusFields(p, nowMs)| - 1].value == TruncateRoute(p.flightPlan.value.route)
    ensures HasFiledRoute(p.flightPlan) ==>
      |StatusFields(p, nowMs)[|StatusFields(p, nowMs)| - 1].value| <= MaxRouteLength + |Ellipsis|
  {
  }

  // ---------------------------------------------------------------------
  // The reply

  /** The parts of an embed the model keeps: colours and timestamps are
      left out. */
  datatype Embed = Embed(title: string, description: string, fields: seq<Field>, footer: Option<string>)

  /** The reply when the configured pilot is not connected. */
  function NotOnlineEmbed(target: string): Embed {
    Embed("Not Online", "Pilot with CID **" + target + "** is not currently flying on VATSIM.", [], None)
  }

  /** The reply for a connected pilot: callsign, CID, fields and position. */
  function StatusEmbed(p: Pilot, nowMs: int): Embed {
    Embed(p.callsign,
          "Pilot CID: **" + NatToString(p.cid) + "** is currently online!",
          StatusFields(p, nowMs),
          Some("Position: " + p.latitudeText + ", " + p.longitudeText))
  }

  /** The embed the handler replies with once the feed has been read. */
  function Reply(pilots: seq<Pilot>, target: string, nowMs: int): Embed {
    match FindPilot(pilots, target)
    case None => NotOnlineEmbed(target)
    case Some(p) => StatusEmbed(p, nowMs)
  }

  /** The reply is the field-less "Not Online" embed exactly when no pilot
      matches, and otherwise the status of the first matching pilot, whose
      description shows the configured CID. */
  lemma ReplyCases(pilots: seq<Pilot>, target: string, nowMs: int)
    ensures Reply(pilots, target, nowMs).fields == [] <==>
      forall i :: 0 <= i < |pilots| ==> !CidMatches(pilots[i], target)
    ensures Reply(pilots, target, nowMs).fields == [] ==> Reply(pilots, target, nowMs) == NotOnlineEmbed(target)
    ensures Reply(pilots, target, nowMs).fields != [] ==>
      Reply(pilots, target, nowMs).description == "Pilot CID: **" + target + "** is currently online!"
  {
  }
}
