/** The persisted form of quota snapshots: the current version, and the two-window form it replaced. */
module QuotaCodec {
  import opened Prelude
  import opened Quota

  const CODING_VERSION := 2

  /** The coding keys of snapshots, windows and sources, current and former. */
  datatype Key =
    | Version | SchemaVersion | Allowed | LimitReached | FetchedAt | Windows | FiveHourWindow | WeeklyWindow
    | WindowKind | DurationSeconds | WindowDurationMins | UsedPercent | ResetsAt | WindowSource | HardLimitReached
    | SourceRateLimit | SourceSlot | LimitName | MeteredFeature

  datatype Json =
    | Null
    | Bool(flag: bool)
    | Number(number: real)
    | Text(text: string)
    | Items(items: seq<Json>)
    | Object(fields: map<Key, Json>)

  datatype DecodingError = KeyNotFound(key: Key) | TypeMismatch | UnsupportedVersion(version: int)

  // ----- Fields of an object ----------------------------------------------------------------------------------

  /** A field that may be missing or null. */
  function FieldIfPresent(fields: map<Key, Json>, key: Key): Option<Json> {
    if key in fields && !fields[key].Null? then Some(fields[key]) else None
  }

  function DecodeNumber(fields: map<Key, Json>, key: Key): Result<real, DecodingError> {
    if key !in fields then Err(KeyNotFound(key))
    else if fields[key].Number? then Ok(fields[key].number) else Err(TypeMismatch)
  }

  function DecodeIntIfPresent(fields: map<Key, Json>, key: Key): Result<Option<int>, DecodingError> {
    match FieldIfPresent(fields, key)
    case None => Ok(None)
    case Some(Number(n)) => if n == n.Floor as real then Ok(Some(n.Floor)) else Err(TypeMismatch)
    case Some(_) => Err(TypeMismatch)
  }

  function DecodeBoolIfPresent(fields: map<Key, Json>, key: Key): Result<Option<bool>, DecodingError> {
    match FieldIfPresent(fields, key)
    case None => Ok(None)
    case Some(Bool(b)) => Ok(Some(b))
    case Some(_) => Err(TypeMismatch)
  }

  function DecodeTextIfPresent(fields: map<Key, Json>, key: Key): Result<Option<string>, DecodingError> {
    match FieldIfPresent(fields, key)
    case None => Ok(None)
    case Some(Text(s)) => Ok(Some(s))
    case Some(_) => Err(TypeMismatch)
  }

  // ----- Sources -------------------------------------------------------------------------------------------------

  function RateLimitText(r: RateLimitSource): string {
    match r
    case Main => "main"
    case Additional => "additional"
    case Legacy => "legacy"
    case UnknownSource => "unknown"
  }

  function ParseRateLimit(s: string): Option<RateLimitSource> {
    if s == "main" then Some(Main)
    else if s == "additional" then Some(Additional)
    else if s == "legacy" then Some(Legacy)
    else if s == "unknown" then Some(UnknownSource)
    else None
  }

  function SlotText(s: Slot): string {
    match s
    case Primary => "primary"
    case Secondary => "secondary"
    case LegacyFiveHour => "legacyFiveHour"
    case LegacyWeekly => "legacyWeekly"
    case UnknownSlot => "unknown"
  }

  function ParseSlot(s: string): Option<Slot> {
    if s == "primary" then Some(Primary)
    else if s == "secondary" then Some(Secondary)
    else if s == "legacyFiveHour" then Some(LegacyFiveHour)
    else if s == "legacyWeekly" then Some(LegacyWeekly)
    else if s == "unknown" then Some(UnknownSlot)
    else None
  }

  function KindText(k: Kind): string {
    match k
    case FiveHour => "fiveHour"
    case Weekly => "weekly"
    case Unknown => "unknown"
  }

  function EncodeOptionalText(fields: map<Key, Json>, key: Key, value: Option<string>): map<Key, Json> {
    if value.Some? then fields[key := Text(value.value)] else fields
  }

  function EncodeSource(s: Source): Json {
    var required := map[Key.SourceRateLimit := Text(RateLimitText(s.rateLimit)), Key.SourceSlot := Text(SlotText(s.slot))];
    var named := EncodeOptionalText(required, Key.LimitName, s.limitName);
    Object(EncodeOptionalText(named, Key.MeteredFeature, s.meteredFeature))
  }

  function DecodeSource(j: Json): Result<Source, DecodingError> {
    if !j.Object? then Err(TypeMismatch)
    else
      match (DecodeTextIfPresent(j.fields, Key.SourceRateLimit), DecodeTextIfPresent(j.fields, Key.SourceSlot),
             DecodeTextIfPresent(j.fields, Key.LimitName), DecodeTextIfPresent(j.fields, Key.MeteredFeature))
      case (Ok(Some(rateLimit)), Ok(Some(slot)), Ok(limitName), Ok(meteredFeature)) =>
        if ParseRateLimit(rateLimit).None? || ParseSlot(slot).None? then Err(TypeMismatch)
        else Ok(Source(ParseRateLimit(rateLimit).value, ParseSlot(slot).value, limitName, meteredFeature))
      case _ => Err(TypeMismatch)
  }

  lemma SourceRoundTrip(s: Source)
    ensures EncodeSource(s).Object? && DecodeSource(EncodeSource(s)) == Ok(s)
  {
    assert ParseRateLimit(RateLimitText(s.rateLimit)) == Some(s.rateLimit);
    assert ParseSlot(SlotText(s.slot)) == Some(s.slot);
  }

  // ----- Windows ---------------------------------------------------------------------------------------------------

  function EncodeWindow(w: Window): Json {
    Object(map[Key.WindowKind := Text(KindText(w.kind)), Key.DurationSeconds := Number(w.durationSeconds as real),
               Key.UsedPercent := Number(w.usedPercent), Key.ResetsAt := Number(w.resetsAt),
               Key.WindowSource := EncodeSource(w.source), Key.HardLimitReached := Bool(w.hardLimitReached)])
  }

  function DecodeSourceIfPresent(fields: map<Key, Json>, default: Source): Result<Source, DecodingError> {
    match FieldIfPresent(fields, Key.WindowSource)
    case None => Ok(default)
    case Some(j) => DecodeSource(j)
  }

  /** The kind is never read back: it is computed from the duration, in seconds or, in older records, in minutes. */
  function DecodeWindow(j: Json): Result<Window, DecodingError> {
    if !j.Object? then Err(TypeMismatch)
    else
      match (DecodeNumber(j.fields, Key.UsedPercent), DecodeNumber(j.fields, Key.ResetsAt),
             DecodeBoolIfPresent(j.fields, Key.HardLimitReached), DecodeIntIfPresent(j.fields, Key.DurationSeconds))
      case (Ok(used), Ok(resets), Ok(hard), Ok(Some(seconds))) =>
        (match DecodeSourceIfPresent(j.fields, Source(UnknownSource, UnknownSlot, None, None))
         case Ok(source) => Ok(Window(Classify(seconds), seconds, used, resets, source, hard == Some(true)))
         case Err(e) => Err(e))
      case (Ok(used), Ok(resets), Ok(hard), Ok(None)) =>
        (match (DecodeIntIfPresent(j.fields, Key.WindowDurationMins),
                DecodeSourceIfPresent(j.fields, Source(Legacy, UnknownSlot, None, None)))
         case (Ok(Some(minutes)), Ok(source)) =>
           Ok(Window(Classify(minutes * 60), minutes * 60, used, resets, source, hard == Some(true)))
         case (Ok(None), _) => Err(KeyNotFound(Key.WindowDurationMins))
         case (Err(e), _) => Err(e)
         case (_, Err(e)) => Err(e))
      case (Err(e), _, _, _) => Err(e)
      case (_, Err(e), _, _) => Err(e)
      case (_, _, Err(e), _) => Err(e)
      case (_, _, _, Err(e)) => Err(e)
  }

  lemma WindowRoundTrip(w: Window)
    ensures DecodeWindow(EncodeWindow(w)) == Ok(w.Normalized())
  {
    SourceRoundTrip(w.source);
    hide EncodeSource, DecodeSource;
    assert (w.durationSeconds as real).Floor == w.durationSeconds;
  }

  /** A window of the former kind, in minutes and without a source, and one in seconds without what may be missing. */
  lemma FormerWindow(used: real, resets: Date, minutes: Option<int>, seconds: int, hard: bool)
    ensures var required := map[Key.UsedPercent := Number(used), Key.ResetsAt := Number(resets),
                                Key.HardLimitReached := Bool(hard)];
            if minutes.None? then DecodeWindow(Object(required)) == Err(KeyNotFound(Key.WindowDurationMins))
            else DecodeWindow(Object(required[Key.WindowDurationMins := Number(minutes.value as real)]))
                 == Ok(Window(Classify(minutes.value * 60), minutes.value * 60, used, resets,
                              Source(Legacy, UnknownSlot, None, None), hard))
    ensures DecodeWindow(Object(map[Key.UsedPercent := Number(used), Key.ResetsAt := Number(resets),
                                    Key.DurationSeconds := Number(seconds as real)]))
            == Ok(Window(Classify(seconds), seconds, used, resets, Source(UnknownSource, UnknownSlot, None, None), false))
  {
    assert (seconds as real).Floor == seconds;
    if minutes.Some? {
      assert (minutes.value as real).Floor == minutes.value;
    }
  }

  function EncodeWindows(windows: seq<Window>): seq<Json> {
    if windows == [] then [] else [EncodeWindow(windows[0])] + EncodeWindows(windows[1..])
  }

  function DecodeWindows(items: seq<Json>): Result<seq<Window>, DecodingError> {
    if items == [] then Ok([])
    else
      match (DecodeWindow(items[0]), DecodeWindows(items[1..]))
      case (Ok(w), Ok(rest)) => Ok([w] + rest)
      case (Err(e), _) => Err(e)
      case (_, Err(e)) => Err(e)
  }

  lemma {:induction false} WindowsRoundTrip(windows: seq<Window>)
    requires forall w <- windows :: w.Normalized() == w
    ensures DecodeWindows(EncodeWindows(windows)) == Ok(windows)
  {
    hide EncodeWindow, DecodeWindow;
    if windows != [] {
      WindowRoundTrip(windows[0]);
      WindowsRoundTrip(windows[1..]);
      assert EncodeWindows(windows)[1..] == EncodeWindows(windows[1..]);
      assert [windows[0]] + windows[1..] == windows;
    }
  }

  // ----- Snapshots ---------------------------------------------------------------------------------------------------

  function EncodeOptionalBool(b: Option<bool>): Json {
    if b.Some? then Bool(b.value) else Null
  }

  function EncodeSnapshot(s: Snapshot): Json {
    Object(map[Key.Version := Number(CODING_VERSION as real), Key.Allowed := EncodeOptionalBool(s.allowed),
               Key.LimitReached := EncodeOptionalBool(s.limitReached), Key.FetchedAt := Number(s.fetchedAt),
               Key.Windows := Items(EncodeWindows(ValidWindows(s.windows)))])
  }

  /** The coding version, under its current or its former name. */
  function DecodeVersion(fields: map<Key, Json>): Result<Option<int>, DecodingError> {
    match DecodeIntIfPresent(fields, Key.Version)
    case Ok(None) => DecodeIntIfPresent(fields, Key.SchemaVersion)
    case other => other
  }

  function DecodeCurrent(fields: map<Key, Json>): Result<Snapshot, DecodingError> {
    match (DecodeBoolIfPresent(fields, Key.Allowed), DecodeBoolIfPresent(fields, Key.LimitReached),
           DecodeNumber(fields, Key.FetchedAt))
    case (Ok(allowed), Ok(limitReached), Ok(fetchedAt)) =>
      if Key.Windows !in fields then Err(KeyNotFound(Key.Windows))
      else if !fields[Key.Windows].Items? then Err(TypeMismatch)
      else
        (match DecodeWindows(fields[Key.Windows].items)
         case Ok(windows) => Ok(MakeSnapshot(allowed, limitReached, fetchedAt, windows))
         case Err(e) => Err(e))
    case (Err(e), _, _) => Err(e)
    case (_, Err(e), _) => Err(e)
    case (_, _, Err(e)) => Err(e)
  }

  function Migrated(w: Window, slot: Slot): Window {
    w.(kind := Classify(w.durationSeconds), source := Source(Legacy, slot, None, None))
  }

  function DecodeLegacyWindow(fields: map<Key, Json>, key: Key, slot: Slot): Result<seq<Window>, DecodingError> {
    match FieldIfPresent(fields, key)
    case None => Ok([])
    case Some(j) =>
      match DecodeWindow(j)
      case Ok(w) => Ok([Migrated(w, slot)])
      case Err(e) => Err(e)
  }

  /** A snapshot without a version: any hard limit denies the account, and nothing is known otherwise. */
  function DecodeLegacy(fields: map<Key, Json>): Result<Snapshot, DecodingError> {
    match (DecodeLegacyWindow(fields, Key.FiveHourWindow, LegacyFiveHour),
           DecodeLegacyWindow(fields, Key.WeeklyWindow, LegacyWeekly),
           DecodeNumber(fields, Key.FetchedAt))
    case (Ok(five), Ok(weekly), Ok(fetchedAt)) =>
      var windows := ValidWindows(five + weekly);
      var denied := exists w <- windows :: w.hardLimitReached;
      Ok(Snapshot(if denied then Some(false) else None, if denied then Some(true) else None, fetchedAt, windows))
    case (Err(e), _, _) => Err(e)
    case (_, Err(e), _) => Err(e)
    case (_, _, Err(e)) => Err(e)
  }

  function DecodeSnapshot(j: Json): Result<Snapshot, DecodingError> {
    if !j.Object? then Err(TypeMismatch)
    else
      match DecodeVersion(j.fields)
      case Err(e) => Err(e)
      case Ok(Some(version)) =>
        if version != CODING_VERSION then Err(UnsupportedVersion(version)) else DecodeCurrent(j.fields)
      case Ok(None) => DecodeLegacy(j.fields)
  }

  /** Snapshots are written in version 2; the version is read under its current or its former name, any other than 2 is
      refused, and only a snapshot without one is migrated. */
  lemma VersionIsChecked(s: Snapshot, fields: map<Key, Json>, version: int)
    ensures EncodeSnapshot(s).Object? && EncodeSnapshot(s).fields[Key.Version] == Number(2.0)
    ensures FieldIfPresent(fields, Key.Version) == Some(Number(version as real))
            || (FieldIfPresent(fields, Key.Version) == None
                && FieldIfPresent(fields, Key.SchemaVersion) == Some(Number(version as real))) ==>
              DecodeSnapshot(Object(fields)) == if version == 2 then DecodeCurrent(fields)
                                                else Err(UnsupportedVersion(version))
    ensures FieldIfPresent(fields, Key.Version) == None && FieldIfPresent(fields, Key.SchemaVersion) == None ==>
              DecodeSnapshot(Object(fields)) == DecodeLegacy(fields)
  {
    hide DecodeCurrent, DecodeLegacy, EncodeWindows, ValidWindows;
    assert (version as real).Floor == version;
  }

  lemma ValidWindowsAreNormalized(windows: seq<Window>)
    ensures forall w <- ValidWindows(windows) :: w.Normalized() == w
  {
    BestIsMostRestrictive(windows, FiveHour);
    BestIsMostRestrictive(windows, Weekly);
    UnknownWindowsAreUnknown(windows);
    hide Best, UnknownWindows;
  }

  lemma CurrentRoundTrip(s: Snapshot)
    ensures DecodeCurrent(EncodeSnapshot(s).fields) == Ok(s.(windows := ValidWindows(s.windows)))
  {
    ValidWindowsAreNormalized(s.windows);
    WindowsRoundTrip(ValidWindows(s.windows));
    ValidWindowsIsIdempotent(s.windows);
    FieldsRoundTrip(s);
    hide EncodeSnapshot, EncodeWindows, DecodeWindows, ValidWindows, DecodeBoolIfPresent, DecodeNumber;
  }

  lemma FieldsRoundTrip(s: Snapshot)
    ensures EncodeSnapshot(s).Object?
    ensures var fields := EncodeSnapshot(s).fields;
            && DecodeBoolIfPresent(fields, Key.Allowed) == Ok(s.allowed)
            && DecodeBoolIfPresent(fields, Key.LimitReached) == Ok(s.limitReached)
            && DecodeNumber(fields, Key.FetchedAt) == Ok(s.fetchedAt)
            && Key.Windows in fields && fields[Key.Windows] == Items(EncodeWindows(ValidWindows(s.windows)))
  {
    hide EncodeWindows, ValidWindows;
  }

  /** What is written is read back, for every snapshot; one that was constructed or decoded is read back unchanged. */
  lemma SnapshotRoundTrip(s: Snapshot)
    ensures DecodeSnapshot(EncodeSnapshot(s)) == Ok(s.(windows := ValidWindows(s.windows)))
    ensures DecodeSnapshot(EncodeSnapshot(s)) == Ok(s) <==> Canonical(s.windows)
  {
    CurrentRoundTrip(s);
    hide DecodeCurrent, DecodeLegacy, EncodeWindows, ValidWindows;
    assert (CODING_VERSION as real).Floor == CODING_VERSION;
    assert DecodeVersion(EncodeSnapshot(s).fields) == Ok(Some(CODING_VERSION));
  }

  /** Whatever is decoded, in either form, is canonical, so writing it back and reading it again changes nothing. */
  lemma DecodedIsCanonical(j: Json)
    requires DecodeSnapshot(j).Ok?
    ensures Canonical(DecodeSnapshot(j).value.windows)
    ensures DecodeSnapshot(EncodeSnapshot(DecodeSnapshot(j).value)) == DecodeSnapshot(j)
  {
    var s := DecodeSnapshot(j).value;
    if DecodeVersion(j.fields).value.Some? {
      var windows := DecodeWindows(j.fields[Key.Windows].items).value;
      ValidWindowsIsIdempotent(windows);
    } else {
      var five := DecodeLegacyWindow(j.fields, Key.FiveHourWindow, LegacyFiveHour).value;
      var weekly := DecodeLegacyWindow(j.fields, Key.WeeklyWindow, LegacyWeekly).value;
      ValidWindowsIsIdempotent(five + weekly);
    }
    SnapshotRoundTrip(s);
  }

  /** A migrated snapshot denies the account if and only if one of its windows had reached its hard limit and lasts. */
  lemma LegacyDenial(fields: map<Key, Json>)
    requires DecodeLegacy(fields).Ok?
    ensures var five, weekly := DecodeLegacyWindow(fields, Key.FiveHourWindow, LegacyFiveHour).value,
                                DecodeLegacyWindow(fields, Key.WeeklyWindow, LegacyWeekly).value;
            var migrated := DecodeLegacy(fields).value;
            && migrated.windows == ValidWindows(five + weekly) && Ok(migrated.fetchedAt) == DecodeNumber(fields, Key.FetchedAt)
            && (migrated.allowed, migrated.limitReached)
               == (if exists w <- five + weekly :: w.durationSeconds > 0 && w.hardLimitReached
                   then (Some(false), Some(true)) else (None, None))
  {
    var windows := DecodeLegacyWindow(fields, Key.FiveHourWindow, LegacyFiveHour).value
                   + DecodeLegacyWindow(fields, Key.WeeklyWindow, LegacyWeekly).value;
    HardLimitsSurvive(windows);
  }

  lemma HardLimitsSurvive(windows: seq<Window>)
    ensures (exists w <- ValidWindows(windows) :: w.hardLimitReached) <==>
              exists w <- windows :: w.durationSeconds > 0 && w.hardLimitReached
  {
    BestIsMostRestrictive(windows, FiveHour);
    BestIsMostRestrictive(windows, Weekly);
    UnknownSurvive(windows);
    forall w <- windows | w.durationSeconds > 0 && w.hardLimitReached
      ensures exists v <- ValidWindows(windows) :: v.hardLimitReached
    {
      var kind := Classify(w.durationSeconds);
      assert Counts(w, kind);
      if !kind.Unknown? {
        assert Best(windows, kind).value in ValidWindows(windows);
      } else {
        assert w.Normalized() in ValidWindows(windows);
      }
    }
  }

  lemma {:induction false} UnknownSurvive(windows: seq<Window>)
    ensures forall v <- UnknownWindows(windows) :: exists w <- windows :: Counts(w, Unknown) && v == w.Normalized()
    ensures forall w <- windows :: Counts(w, Unknown) ==> w.Normalized() in UnknownWindows(windows)
  {
    if windows != [] {
      var rest, last := windows[..|windows| - 1], windows[|windows| - 1];
      UnknownSurvive(rest);
      assert windows == rest + [last];
      forall v <- UnknownWindows(windows)
        ensures exists w <- windows :: Counts(w, Unknown) && v == w.Normalized()
      {
        if v in UnknownWindows(rest) {
          var w :| w in rest && Counts(w, Unknown) && v == w.Normalized();
          assert w in windows;
        } else {
          assert last in windows;
        }
      }
    }
  }
}
