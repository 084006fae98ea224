// Engagement timelines, the rows MO keeps about an engagement, and how the two relate.
module EngagementModel {
  import opened Common
  import opened Timelines
  import opened MoRows

  datatype EngType =
    | MonthlyFullTime | MonthlyPartTime | Hourly | Recalculate
    | Status0 | Status1 | Status3 | Status4

  datatype EngagementTimeline = EngagementTimeline(
    active: seq<Interval<bool>>,
    key: seq<Interval<string>>,
    name: seq<Interval<Option<string>>>,
    unit: seq<Interval<Uuid>>,
    sdUnit: seq<Interval<Option<Uuid>>>,
    unitId: seq<Interval<Option<string>>>,
    engType: seq<Interval<EngType>>)

  const EMPTY := EngagementTimeline([], [], [], [], [], [], [])

  ghost predicate CanonicalTimeline(tl: EngagementTimeline) {
    && Canonical(tl.active) && Canonical(tl.key) && Canonical(tl.name) && Canonical(tl.unit)
    && Canonical(tl.sdUnit) && Canonical(tl.unitId) && Canonical(tl.engType)
  }

  // What a timeline says at one instant, field by field.
  datatype EngAt = EngAt(
    active: Option<bool>,
    key: Option<string>,
    name: Option<Option<string>>,
    unit: Option<Uuid>,
    sdUnit: Option<Option<Uuid>>,
    unitId: Option<Option<string>>,
    engType: Option<EngType>)

  function RecordAt(tl: EngagementTimeline, t: Time): EngAt {
    EngAt(At(tl.active, t), At(tl.key, t), At(tl.name, t), At(tl.unit, t),
          At(tl.sdUnit, t), At(tl.unitId, t), At(tl.engType, t))
  }

  predicate EqualAt(a: EngagementTimeline, b: EngagementTimeline, t: Time) {
    RecordAt(a, t) == RecordAt(b, t)
  }

  predicate Complete(d: EngAt) {
    d.active.Some? && d.key.Some? && d.name.Some? && d.unit.Some?
    && d.sdUnit.Some? && d.unitId.Some? && d.engType.Some?
  }

  predicate HasRequiredMoValues(tl: EngagementTimeline, t: Time) {
    Complete(RecordAt(tl, t))
  }

  function TimelineEndpoints(tl: EngagementTimeline): set<Time> {
    Endpoints(tl.active) + Endpoints(tl.key) + Endpoints(tl.name) + Endpoints(tl.unit)
    + Endpoints(tl.sdUnit) + Endpoints(tl.unitId) + Endpoints(tl.engType)
  }

  ghost predicate EndsInTime(tl: EngagementTimeline) {
    && InTime(tl.active) && InTime(tl.key) && InTime(tl.name) && InTime(tl.unit)
    && InTime(tl.sdUnit) && InTime(tl.unitId) && InTime(tl.engType)
  }

  lemma EndpointsInTime(tl: EngagementTimeline)
    requires EndsInTime(tl)
    ensures forall p :: p in TimelineEndpoints(tl) ==> p <= POSITIVE_INFINITY
  {
  }

  ghost predicate HasEndpointsOf(e: seq<Time>, tl: EngagementTimeline) {
    && (forall p :: p in Endpoints(tl.active) ==> p in e)
    && (forall p :: p in Endpoints(tl.key) ==> p in e)
    && (forall p :: p in Endpoints(tl.name) ==> p in e)
    && (forall p :: p in Endpoints(tl.unit) ==> p in e)
    && (forall p :: p in Endpoints(tl.sdUnit) ==> p in e)
    && (forall p :: p in Endpoints(tl.unitId) ==> p in e)
    && (forall p :: p in Endpoints(tl.engType) ==> p in e)
  }

  ghost predicate ConstantOn(tl: EngagementTimeline, a: Time, b: Time) {
    forall t :: a <= t < b ==> RecordAt(tl, t) == RecordAt(tl, a)
  }

  // Between neighbouring endpoints no field changes.
  lemma RecordConstant(tl: EngagementTimeline, e: seq<Time>, k: nat)
    requires StrictlyIncreasing(e) && k + 1 < |e| && HasEndpointsOf(e, tl)
    ensures ConstantOn(tl, e[k], e[k + 1])
  {
    ConstantOnChunk(tl.active, e, k);
    ConstantOnChunk(tl.key, e, k);
    ConstantOnChunk(tl.name, e, k);
    ConstantOnChunk(tl.unit, e, k);
    ConstantOnChunk(tl.sdUnit, e, k);
    ConstantOnChunk(tl.unitId, e, k);
    ConstantOnChunk(tl.engType, e, k);
  }

  lemma RecordOutsideHull(tl: EngagementTimeline, e: seq<Time>, t: Time)
    requires StrictlyIncreasing(e) && HasEndpointsOf(e, tl)
    requires e == [] || t < e[0] || e[|e| - 1] <= t
    ensures RecordAt(tl, t) == EngAt(None, None, None, None, None, None, None)
  {
    NothingOutsideHull(tl.active, e, t);
    NothingOutsideHull(tl.key, e, t);
    NothingOutsideHull(tl.name, e, t);
    NothingOutsideHull(tl.unit, e, t);
    NothingOutsideHull(tl.sdUnit, e, t);
    NothingOutsideHull(tl.unitId, e, t);
    NothingOutsideHull(tl.engType, e, t);
  }

  // ----- MO's rows

  // The text in extension_5. The SD unit is written as str(value), so a missing value
  // becomes the text "None", which no later read can parse as an identifier.
  datatype Extension5 = Null | UnitText(uuid: Uuid) | NoneText

  // The attributes an update copies from the row it replaces.
  datatype MoOwned = MoOwned(
    primary: Option<Uuid>, extension2: Option<string>, extension3: Option<string>,
    extension6: Option<string>, extension7: Option<string>, extension8: Option<string>,
    extension9: Option<string>, extension10: Option<string>)

  const NOTHING_OWNED := MoOwned(None, None, None, None, None, None, None, None)

  datatype EngRow = EngRow(
    key: string, name: Option<string>, unit: Uuid, sdUnit: Extension5,
    unitId: Option<string>, engType: EngType, owned: MoOwned)

  // MO's database turns the empty string into null.
  function StoredText(text: Option<string>): Option<string> {
    if text == Some("") then None else text
  }

  function StrOfSdUnit(sdUnit: Option<Uuid>): Extension5 {
    if sdUnit.Some? then UnitText(sdUnit.value) else NoneText
  }

  function ParsedSdUnit(text: Extension5): Option<Uuid> {
    if text.UnitText? then Some(text.uuid) else None
  }

  // The row that creating or updating writes for the desired values d.
  function Written(d: EngAt, owned: MoOwned): EngRow
    requires Complete(d)
  {
    EngRow(d.key.value, StoredText(d.name.value), d.unit.value, StrOfSdUnit(d.sdUnit.value),
           StoredText(d.unitId.value), d.engType.value, owned)
  }

  // What one row says, read as timeline fields; no row, no fields.
  function ReadRow(row: Option<EngRow>): EngAt {
    if row.None? then EngAt(None, None, None, None, None, None, None)
    else EngAt(Some(true), Some(row.value.key), Some(row.value.name), Some(row.value.unit),
               Some(ParsedSdUnit(row.value.sdUnit)), Some(row.value.unitId), Some(row.value.engType))
  }

  // The desired values MO can hold: written and read again they come back as they were.
  predicate Storable(d: EngAt) {
    d.name != Some(Some("")) && d.unitId != Some(Some("")) && d.sdUnit != Some(None)
  }

  predicate Readable(row: EngRow) { row.sdUnit != NoneText }

  lemma WrittenReadsBackIffStorable(d: EngAt, owned: MoOwned)
    requires Complete(d) && d.active == Some(true)
    ensures Readable(Written(d, owned)) && ReadRow(Some(Written(d, owned))) == d <==> Storable(d)
  {
  }

  function RowActive(row: EngRow): bool { true }
  function RowKey(row: EngRow): string { row.key }
  function RowName(row: EngRow): Option<string> { row.name }
  function RowUnit(row: EngRow): Uuid { row.unit }
  function RowSdUnit(row: EngRow): Option<Uuid> { ParsedSdUnit(row.sdUnit) }
  function RowUnitId(row: EngRow): Option<string> { row.unitId }
  function RowEngType(row: EngRow): EngType { row.engType }

  predicate AllReadable(rows: seq<Interval<EngRow>>) {
    forall i :: 0 <= i < |rows| ==> Readable(rows[i].value)
  }

  // The engagement timeline read from MO; None when some row cannot be parsed.
  function GetEngagementTimeline(rows: seq<Interval<EngRow>>): Option<EngagementTimeline> {
    if !AllReadable(rows) then None
    else if rows == [] then Some(EMPTY)
    else Some(EngagementTimeline(
      FieldTimeline(rows, RowActive), FieldTimeline(rows, RowKey), FieldTimeline(rows, RowName),
      FieldTimeline(rows, RowUnit), FieldTimeline(rows, RowSdUnit), FieldTimeline(rows, RowUnitId),
      FieldTimeline(rows, RowEngType)))
  }

  // tl is the timeline of rows, at every instant.
  ghost predicate Mirrors(tl: EngagementTimeline, rows: seq<Interval<EngRow>>) {
    forall t :: RecordAt(tl, t) == ReadRow(At(rows, t))
  }

  lemma ReadBackMirrors(rows: seq<Interval<EngRow>>)
    requires WellFormed(rows) && AllReadable(rows)
    ensures CanonicalTimeline(GetEngagementTimeline(rows).value)
    ensures Mirrors(GetEngagementTimeline(rows).value, rows)
  {
    FieldTimelineAt(rows, RowActive);
    FieldTimelineAt(rows, RowKey);
    FieldTimelineAt(rows, RowName);
    FieldTimelineAt(rows, RowUnit);
    FieldTimelineAt(rows, RowSdUnit);
    FieldTimelineAt(rows, RowUnitId);
    FieldTimelineAt(rows, RowEngType);
  }

  // ----- what a run of the engagement loop makes of one instant

  // d: the desired values; row: what MO had.
  function Outcome(d: EngAt, row: Option<EngRow>): Option<EngRow> {
    if d == ReadRow(row) then row
    else if d.active != Some(true) then None
    else if !Complete(d) then row
    else Some(Written(d, if row.Some? then row.value.owned else NOTHING_OWNED))
  }

  // The instants whose engagement, and before it the leave, is terminated.
  predicate Terminates(d: EngAt, row: Option<EngRow>) {
    d != ReadRow(row) && d.active != Some(true)
  }
}
