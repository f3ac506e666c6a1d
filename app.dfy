/** The browser controller of js/app.js (class SaturdayRunClub): the local
    fallback registry, the admin's quick add and removal, the backup filter,
    the export, the event configuration form and the next-Saturday offset.
    Rendering is left out; `updateParticipantsDisplay` is kept for the backup
    it triggers. Browser storage is two fields of the controller. */
module App {
  import opened Wrappers
  import opened Text
  import opened Participants
  import Server

  /** The secret the `admin` query parameter must equal. */
  const AdminKey: string := "runclub2024"

  // ------------------------------------------------------------------
  // Next Saturday
  // ------------------------------------------------------------------

  /** JavaScript's `%`, which truncates toward zero. */
  function JsRemainder(a: int, b: int): int
    requires b > 0
  {
    if a >= 0 then a % b else -((-a) % b)
  }

  /** getNextSaturday as the number of days to add to today, given
      `getDay()` (0 is Sunday, 6 Saturday) and `getHours()`. The offset lands
      on a Saturday; it is 7 exactly when today is Saturday and ten o'clock
      has passed, and otherwise it is the first Saturday from today on. */
  function DaysUntilSaturday(dayOfWeek: int, hour: int): (r: nat)
    requires 0 <= dayOfWeek <= 6 && 0 <= hour <= 23
    ensures r <= 7
    ensures (dayOfWeek + r) % 7 == 6
    ensures r == 7 <==> dayOfWeek == 6 && hour >= 10
  {
    var daysUntilSaturday := JsRemainder(6 - dayOfWeek, 7);
    if daysUntilSaturday == 0 && hour >= 10 then 7 else daysUntilSaturday
  }

  /** The three facts above pin the offset down: no other offset satisfies them. */
  lemma DaysUntilSaturdayUnique(dayOfWeek: int, hour: int, d: nat)
    requires 0 <= dayOfWeek <= 6 && 0 <= hour <= 23
    requires d <= 7 && (dayOfWeek + d) % 7 == 6 && (d == 7 <==> dayOfWeek == 6 && hour >= 10)
    ensures d == DaysUntilSaturday(dayOfWeek, hour)
  {
  }

  // ------------------------------------------------------------------
  // Participant list helpers
  // ------------------------------------------------------------------

  /** The entries kept by the backup and the restore: those without a `type`,
      or whose `type` is neither "system_warning" nor "recovery_prompt". */
  predicate IsRealParticipant(p: Participant) {
    p.kind.None? || (p.kind.value != "system_warning" && p.kind.value != "recovery_prompt")
  }

  function RealParticipants(ps: seq<Participant>): (r: seq<Participant>)
    ensures |r| <= |ps|
    ensures forall p :: p in r <==> p in ps && IsRealParticipant(p)
  {
    Filter(ps, IsRealParticipant)
  }

  /** What the stored backup holds after autoBackupToLocalStorage: the real
      entries when there is at least one, and otherwise what was stored
      before. */
  function BackupAfter(ps: seq<Participant>, previous: Option<seq<Participant>>): (r: Option<seq<Participant>>)
    ensures r != previous ==> r.Some? && r.value != [] && forall p :: p in r.value <==> p in ps && IsRealParticipant(p)
    ensures (exists p :: p in ps && IsRealParticipant(p)) ==> r == Some(RealParticipants(ps))
  {
    var kept := RealParticipants(ps);
    if kept != [] then Some(kept) else previous
  }

  /** A record the page creates itself: no id, no type. */
  function LocalEntry(name: string, now: int): Participant {
    Participant(None, name, now, None)
  }

  function Names(ps: seq<Participant>): (r: seq<string>)
    ensures |r| == |ps|
    ensures forall k :: 0 <= k < |ps| ==> r[k] == ps[k].name
  {
    seq(|ps|, k requires 0 <= k < |ps| => ps[k].name)
  }

  /** The exported text file: the names, one per line. */
  function ExportText(ps: seq<Participant>): string {
    Join(Names(ps), "\n")
  }

  /** The export holds exactly the stored names, one per line, in list order:
      splitting it at line breaks gives the names back. */
  lemma ExportLines(ps: seq<Participant>)
    requires ps != []
    requires forall k :: 0 <= k < |ps| ==> '\n' !in ps[k].name
    ensures Split(ExportText(ps), '\n') == Names(ps)
  {
    SplitJoin(Names(ps), '\n');
  }

  // ------------------------------------------------------------------
  // Participants from issue comments
  // ------------------------------------------------------------------

  const NamePrefix: string := "Name:"

  /** The name a comment's lines give: the text after "Name:" on the last
      line that starts with it, trimmed, or "Anonymous" when no line does. */
  function CommentName(lines: seq<string>): string
    decreases |lines|
  {
    if lines == [] then "Anonymous"
    else
      var last := lines[|lines| - 1];
      if StartsWith(last, NamePrefix) then Trim(last[|NamePrefix|..])
      else CommentName(lines[..|lines| - 1])
  }

  /** parseParticipantFromComment: the body is split into lines and every
      line starting with "Name:" overwrites the name with the rest of that
      line, trimmed. `createdAt` is the comment's creation time. */
  method ParseParticipantFromComment(body: string, createdAt: int) returns (p: Participant)
    ensures p == Participant(None, CommentName(Split(body, '\n')), createdAt, None)
  {
    var lines := Split(body, '\n');
    var name := "Anonymous";
    for i := 0 to |lines|
      invariant name == CommentName(lines[..i])
    {
      assert lines[..i + 1][..i] == lines[..i];
      if StartsWith(lines[i], NamePrefix) {
        assert ReplaceFirst(lines[i], NamePrefix, "") == lines[i][|NamePrefix|..];
        name := Trim(ReplaceFirst(lines[i], NamePrefix, ""));
      }
    }
    assert lines[..|lines|] == lines;
    p := Participant(None, name, createdAt, None);
  }

  /** Without a "Name:" line the participant is "Anonymous". */
  lemma {:induction false} CommentNameWithoutNameLine(lines: seq<string>)
    requires forall k :: 0 <= k < |lines| ==> !StartsWith(lines[k], NamePrefix)
    ensures CommentName(lines) == "Anonymous"
    decreases |lines|
  {
    if lines != [] {
      var front := lines[..|lines| - 1];
      assert forall k :: 0 <= k < |front| ==> front[k] == lines[k];
      CommentNameWithoutNameLine(front);
    }
  }

  /** Otherwise the name comes from the last "Name:" line. */
  lemma {:induction false} CommentNameIsLastNameLine(lines: seq<string>, k: nat)
    requires k < |lines| && StartsWith(lines[k], NamePrefix)
    requires forall j :: k < j < |lines| ==> !StartsWith(lines[j], NamePrefix)
    ensures CommentName(lines) == Trim(lines[k][|NamePrefix|..])
    decreases |lines|
  {
    var n := |lines| - 1;
    if k < n {
      var front := lines[..n];
      assert front[k] == lines[k];
      assert forall j :: k < j < |front| ==> front[j] == lines[j];
      CommentNameIsLastNameLine(front, k);
    }
  }

  /** A body whose first line is "Name:" followed by a name, and whose other
      lines do not start with "Name:", yields that name trimmed. */
  lemma NameLineFirst(name: string, rest: string)
    requires '\n' !in name
    requires forall k :: 0 <= k < |Split(rest, '\n')| ==> !StartsWith(Split(rest, '\n')[k], NamePrefix)
    ensures CommentName(Split(NamePrefix + name + "\n" + rest, '\n')) == Trim(name)
  {
    var line := NamePrefix + name;
    assert '\n' !in NamePrefix;
    assert '\n' !in line;
    assert NamePrefix + name + "\n" + rest == line + ['\n'] + rest;
    SplitAfterPiece(line, rest, '\n');
    var lines := [line] + Split(rest, '\n');
    assert StartsWith(lines[0], NamePrefix);
    assert line[|NamePrefix|..] == name;
    assert forall j :: 0 < j < |lines| ==> lines[j] == Split(rest, '\n')[j - 1];
    CommentNameIsLastNameLine(lines, 0);
  }

  /** What the page makes of the server's reply to its POST: the list it
      returned, or a failure (the 400 and 500 replies carry `success: false`). */
  datatype ApiReply = Accepted(participants: seq<Participant>) | Unavailable

  function ReplyOf(resp: Server.Response): (r: ApiReply)
    ensures r.Accepted? <==> resp.Listed?
    ensures r.Accepted? ==> r.participants == resp.participants
  {
    match resp
    case Listed(_, ps, _) => Accepted(ps)
    case Failed(_, _) => Unavailable
  }

  /** A name made of spaces passes the page's own check (it only rejects an
      empty field), the server refuses it with 400, and the page then records
      it locally without trimming: a blank record is appended when no stored
      name matches it. */
  lemma BlankNameFallsBackUntrimmed(ps: seq<Participant>, name: string, now: int)
    requires name != "" && IsBlank(name)
    ensures ReplyOf(Server.CheckName(Some(name)).error) == Unavailable
    ensures Server.CheckName(Some(name)).error.status == 400
    ensures FirstMatch(ps, NameKey(name)).None? ==>
      var r := Upsert(ps, LocalEntry(name, now));
      r[|r| - 1].name == name && r[|r| - 1].name != Trim(name)
  {
  }

  // ------------------------------------------------------------------
  // Restoring the backup
  // ------------------------------------------------------------------

  /** The notification restoreFromLocalStorage ends with. */
  datatype RestoreNotice = NoBackup | EmptyBackup | Cancelled | Restored(count: nat) | RestoreFailed

  /** restoreFromLocalStorage as written: it awaits `this.addParticipantToAPI`,
      which js/app.js never defines, so the first real entry throws a
      TypeError and the catch reports a failure. Only a backup with no real
      entry "restores", and then nothing. */
  function RestoreAsWritten(backup: Option<seq<Participant>>, confirmed: bool): (n: RestoreNotice)
    ensures n.Restored? ==> n.count == 0
    ensures n == RestoreFailed <==> backup.Some? && confirmed && RealParticipants(backup.value) != []
  {
    match backup
    case None => NoBackup
    case Some(saved) =>
      if |saved| == 0 then EmptyBackup
      else
        if !confirmed then Cancelled
        else if |RealParticipants(saved)| == 0 then Restored(0)
        else RestoreFailed
  }

  /** A concrete backup the restore loses: one real record, confirmed. The
      source reports a failure, while the corrected restore puts the name on
      the server. */
  lemma RestoreAsWrittenLosesBackup()
    ensures RestoreAsWritten(Some([LocalEntry("Kim", 0)]), true) == RestoreFailed
    ensures FirstMatch(RestoredStore([], ["Kim"], ["1"], 0), NameKey(Trim("Kim"))).Some?
  {
    var kim := LocalEntry("Kim", 0);
    assert RealParticipants([kim]) == [kim] by {
      assert kim in RealParticipants([kim]);
    }
    assert !IsWhitespace("Kim"[0]);
    RestoredStoreHasEveryName([], ["Kim"], ["1"], 0);
  }

  /** One POST /api/participants of the server, with a successful write: a
      name the server refuses leaves the store as it was. */
  function RegisterStep(store: seq<Participant>, name: string, id: string, now: int): seq<Participant> {
    match Server.CheckName(Some(name))
    case Ok(trimmed) => Upsert(store, Server.NewRecord(id, trimmed, now))
    case Err(_) => store
  }

  /** participants.json after the corrected restore has posted each name in
      turn, the k-th with id `ids[k]`. */
  function RestoredStore(store: seq<Participant>, names: seq<string>, ids: seq<string>, now: int): seq<Participant>
    requires |ids| == |names|
    decreases |names|
  {
    if names == [] then store
    else
      var n := |names| - 1;
      RegisterStep(RestoredStore(store, names[..n], ids[..n], now), names[n], ids[n], now)
  }

  /** One registration keeps every name already on the server, and keeps
      names unique. */
  lemma RegisterStepKeeps(store: seq<Participant>, name: string, id: string, now: int, key: string)
    ensures FirstMatch(store, key).Some? ==> FirstMatch(RegisterStep(store, name, id, now), key).Some?
    ensures NamesUnique(store) ==> NamesUnique(RegisterStep(store, name, id, now))
  {
    if !IsBlank(name) {
      var e := Server.NewRecord(id, Trim(name), now);
      if FirstMatch(store, key).Some? {
        UpsertKeepsKeys(store, e, key);
      }
      if NamesUnique(store) {
        UpsertKeepsNamesUnique(store, e);
      }
    }
  }

  /** A registration the server accepts leaves the trimmed name on it. */
  lemma RegisterStepRecords(store: seq<Participant>, name: string, id: string, now: int)
    requires !IsBlank(name)
    ensures FirstMatch(RegisterStep(store, name, id, now), NameKey(Trim(name))).Some?
  {
    var e := Server.NewRecord(id, Trim(name), now);
    var r := Upsert(store, e);
    UpsertRecordsName(store, e);
    var i :| 0 <= i < |r| && Matches(r[i], NameKey(e.name)) && r[i].timestamp == e.timestamp;
  }

  /** After the corrected restore every name the server accepts is on the
      server (up to case, after trimming), and names stay unique. */
  lemma {:induction false} RestoredStoreHasEveryName(store: seq<Participant>, names: seq<string>, ids: seq<string>, now: int)
    requires |ids| == |names|
    ensures forall k :: 0 <= k < |names| && !IsBlank(names[k]) ==>
      FirstMatch(RestoredStore(store, names, ids, now), NameKey(Trim(names[k]))).Some?
    ensures NamesUnique(store) ==> NamesUnique(RestoredStore(store, names, ids, now))
    decreases |names|
  {
    if names != [] {
      var n := |names| - 1;
      var before := RestoredStore(store, names[..n], ids[..n], now);
      RestoredStoreHasEveryName(store, names[..n], ids[..n], now);
      forall k | 0 <= k < |names| && !IsBlank(names[k])
        ensures FirstMatch(RestoredStore(store, names, ids, now), NameKey(Trim(names[k]))).Some?
      {
        if k < n {
          assert names[..n][k] == names[k];
          RegisterStepKeeps(before, names[n], ids[n], now, NameKey(Trim(names[k])));
        } else {
          RegisterStepRecords(before, names[n], ids[n], now);
        }
      }
      RegisterStepKeeps(before, names[n], ids[n], now, "");
    }
  }

  /** The store after posting a prefix of the names, one name longer. */
  lemma RestoredStoreStep(store: seq<Participant>, names: seq<string>, ids: seq<string>, now: int, n: nat)
    requires |ids| == |names| && 0 < n <= |names|
    ensures RestoredStore(store, names[..n], ids[..n], now)
      == RegisterStep(RestoredStore(store, names[..n - 1], ids[..n - 1], now), names[n - 1], ids[n - 1], now)
  {
    assert names[..n][..n - 1] == names[..n - 1];
    assert ids[..n][..n - 1] == ids[..n - 1];
  }

  /** The corrected restore's loop: POST each name in turn, the k-th with
      id `ids[k]`. */
  method PostAll(server: Server.DataFile, names: seq<string>, ids: seq<string>, now: int)
    requires |ids| == |names|
    modifies server
    ensures server.participants == RestoredStore(old(server.participants), names, ids, now)
  {
    var k := 0;
    while k < |names|
      invariant 0 <= k <= |names|
      invariant server.participants == RestoredStore(old(server.participants), names[..k], ids[..k], now)
    {
      ghost var before := server.participants;
      var _ := server.Register(Some(names[k]), ids[k], now, true);
      assert server.participants == RegisterStep(before, names[k], ids[k], now);
      RestoredStoreStep(old(server.participants), names, ids, now, k + 1);
      k := k + 1;
    }
    assert names[..k] == names && ids[..k] == ids;
  }

  // ------------------------------------------------------------------
  // Event configuration
  // ------------------------------------------------------------------

  /** The event shown on the page. */
  datatype EventConfig = EventConfig(
    title: string, description: string, time: string,
    location: string, announcement: string, activities: seq<string>)

  /** Neither end of the string is whitespace. */
  predicate IsTrimmed(s: string) {
    s == [] || (!IsWhitespace(s[0]) && !IsWhitespace(s[|s| - 1]))
  }

  /** getDefaultEventConfig: the event shown until an admin saves one. The
      longer texts are written as concatenations of shorter pieces, which
      denote the same strings and keep the proofs that mention them small. */
  function DefaultEventConfig(): EventConfig {
    EventConfig(DefaultTitle(), DefaultDescription(), DefaultTime(), DefaultLocation(), "", DefaultActivities())
  }

  function DefaultTitle(): string {
    "Saturday Run " + "& Coffee Club"
  }

  function DefaultDescription(): string {
    "A mindful Saturday " + "morning ritual " + "combining 5km " + "running, specialty " + "coffee, and " + "productive " + "activities"
  }

  function DefaultTime(): string {
    "8:00 AM - " + "11:00 AM"
  }

  function DefaultLocation(): string {
    "서울 한강공원 " + "반포지구 " + "(반포한강공원)"
  }

  function DefaultActivities(): seq<string> {
    [ "🏃‍♂️ 5km morning " + "run at 8:00 AM",
      "☕ Specialty coffee " + "& light refreshments",
      "📚 Productive " + "activities: reading, " + "journaling, planning",
      "💬 Meaningful " + "conversations & " + "positive energy " + "exchange" ]
  }

  /** The edit form's fields; an activity input the page lacks is None. */
  datatype EventForm = EventForm(
    title: string, description: string, time: string,
    location: string, announcement: string, activityInputs: seq<Option<string>>)

  /** What one activity input contributes: its trimmed value, unless the
      input is missing or blank. */
  function Activity(input: Option<string>): (r: seq<string>)
    ensures |r| <= 1
    ensures r != [] <==> input.Some? && !IsBlank(input.value)
    ensures r != [] ==> r[0] == Trim(input.value) && r[0] != "" && IsTrimmed(r[0])
  {
    if input.Some? && Trim(input.value) != "" then [Trim(input.value)] else []
  }

  /** The activities the save loop collects: the trimmed value of each input
      that exists and is not blank, in input order. */
  function FilledActivities(inputs: seq<Option<string>>): (r: seq<string>)
    ensures |r| <= |inputs|
    ensures forall k :: 0 <= k < |r| ==> r[k] != "" && IsTrimmed(r[k])
  {
    if inputs == [] then []
    else FilledActivities(inputs[..|inputs| - 1]) + Activity(inputs[|inputs| - 1])
  }

  // The next two sequence facts are ones Dafny knows, stated as lemmas so a
  // proof can cite them for plain sequences instead of having the solver
  // rediscover them among the heavier terms where they are needed.

  /** A prefix extended by the next element is the longer prefix. */
  lemma SliceSnoc<T>(s: seq<T>, m: nat)
    requires m < |s|
    ensures s[..m] + [s[m]] == s[..m + 1]
  {
  }

  /** Concatenation is associative. */
  lemma SeqAssoc<T>(x: seq<T>, y: seq<T>, z: seq<T>)
    ensures (x + y) + z == x + (y + z)
  {
  }

  /** The collected activities follow the inputs' order. */
  lemma {:induction false} FilledActivitiesAppend(a: seq<Option<string>>, b: seq<Option<string>>)
    ensures FilledActivities(a + b) == FilledActivities(a) + FilledActivities(b)
    decreases |b|
  {
    if b == [] {
      assert a + b == a;
    } else {
      var n := |b| - 1;
      var last := Activity(b[n]);
      assert (a + b)[..|a + b| - 1] == a + b[..n];
      assert FilledActivities(a + b) == FilledActivities(a + b[..n]) + last;
      assert FilledActivities(b) == FilledActivities(b[..n]) + last;
      FilledActivitiesAppend(a, b[..n]);
      SeqAssoc(FilledActivities(a), FilledActivities(b[..n]), last);
    }
  }

  /** The activities of a prefix of the inputs, one input longer. */
  lemma FilledActivitiesStep(inputs: seq<Option<string>>, n: nat)
    requires 0 < n <= |inputs|
    ensures FilledActivities(inputs[..n]) == FilledActivities(inputs[..n - 1]) + Activity(inputs[n - 1])
  {
    assert inputs[..n][..n - 1] == inputs[..n - 1];
  }

  /** The `for (let i = 1; i <= 4; i++)` loop of saveEventConfig. */
  method CollectActivities(inputs: seq<Option<string>>) returns (activities: seq<string>)
    requires |inputs| == 4
    ensures activities == FilledActivities(inputs)
  {
    activities := [];
    for i := 1 to 5
      invariant activities == FilledActivities(inputs[..i - 1])
    {
      FilledActivitiesStep(inputs, i);
      activities := activities + Activity(inputs[i - 1]);
    }
    assert inputs[..4] == inputs;
  }

  /** `value.trim() || fallback`: the trimmed value, or the fallback when
      the value is blank. */
  function TrimOr(value: string, fallback: string): (r: string)
    ensures IsBlank(value) ==> r == fallback
    ensures !IsBlank(value) ==> r == Trim(value) && r != ""
  {
    if Trim(value) != "" then Trim(value) else fallback
  }

  /** The configuration saveEventConfig builds from the form: a blank title,
      description or time falls back to the default, the location and the
      announcement are only trimmed, and no filled activity means the default
      activities. The result always has the saved shape. */
  function ConfigFromForm(form: EventForm): (c: EventConfig)
    requires |form.activityInputs| == 4
    ensures c.title == if IsBlank(form.title) then DefaultEventConfig().title else Trim(form.title)
    ensures c.description == if IsBlank(form.description) then DefaultEventConfig().description else Trim(form.description)
    ensures c.time == if IsBlank(form.time) then DefaultEventConfig().time else Trim(form.time)
    ensures c.location == Trim(form.location) && c.announcement == Trim(form.announcement)
    ensures FilledActivities(form.activityInputs) != [] ==> c.activities == FilledActivities(form.activityInputs)
    ensures FilledActivities(form.activityInputs) == [] ==> c.activities == DefaultEventConfig().activities
  {
    var d := DefaultEventConfig();
    var activities := FilledActivities(form.activityInputs);
    EventConfig(
      TrimOr(form.title, d.title),
      TrimOr(form.description, d.description),
      TrimOr(form.time, d.time),
      Trim(form.location),
      Trim(form.announcement),
      if |activities| == 0 then d.activities else activities)
  }

  /** What JSON.parse makes of the stored configuration: a parse error, or
      an object with some of the six keys. */
  datatype StoredConfig =
    | Unreadable
    | Keys(title: Option<string>, description: Option<string>, time: Option<string>,
           location: Option<string>, announcement: Option<string>, activities: Option<seq<string>>)

  /** The stored form of a configuration: every key present. */
  function Serialize(c: EventConfig): StoredConfig {
    Keys(Some(c.title), Some(c.description), Some(c.time), Some(c.location), Some(c.announcement), Some(c.activities))
  }

  /** A stored value, or the default when the key is absent. */
  function OrDefault<T>(o: Option<T>, d: T): T {
    if o.Some? then o.value else d
  }

  /** `{ ...getDefaultEventConfig(), ...stored }`: a stored key wins, a
      missing key keeps the default. */
  function MergeOverDefaults(s: StoredConfig): (c: EventConfig)
    requires s.Keys?
    ensures s.title.Some? ==> c.title == s.title.value
    ensures s.title.None? ==> c.title == DefaultEventConfig().title
    ensures c.description == if s.description.Some? then s.description.value else DefaultEventConfig().description
    ensures c.time == if s.time.Some? then s.time.value else DefaultEventConfig().time
    ensures c.location == if s.location.Some? then s.location.value else DefaultEventConfig().location
    ensures c.announcement == if s.announcement.Some? then s.announcement.value else ""
    ensures s.activities.Some? ==> c.activities == s.activities.value
    ensures s.activities.None? ==> c.activities == DefaultEventConfig().activities
  {
    var d := DefaultEventConfig();
    EventConfig(
      OrDefault(s.title, d.title), OrDefault(s.description, d.description), OrDefault(s.time, d.time),
      OrDefault(s.location, d.location), OrDefault(s.announcement, d.announcement),
      OrDefault(s.activities, d.activities))
  }

  /** Loading what was saved gives the saved configuration back, and loading
      an object with no keys gives the defaults. */
  lemma LoadAfterSave(c: EventConfig)
    ensures MergeOverDefaults(Serialize(c)) == c
    ensures MergeOverDefaults(Keys(None, None, None, None, None, None)) == DefaultEventConfig()
  {
  }

  /** A trimmed string is its own trim. */
  lemma TrimmedIsOwnTrim(s: string)
    requires IsTrimmed(s)
    ensures Trim(s) == s
  {
    assert TrimStart(s) == s;
    assert TrimEnd(s) == s;
  }

  /** An input showing a filled, trimmed activity gives that activity back. */
  lemma ShownActivity(a: string)
    requires a != "" && IsTrimmed(a)
    ensures Activity(Some(a)) == [a]
  {
    TrimmedIsOwnTrim(a);
  }

  /** An empty input gives no activity. */
  lemma EmptyInputActivity()
    ensures Activity(Some("")) == []
  {
    assert IsBlank("");
  }

  /** populateEditForm: the form shows each field of the configuration (an
      empty one as empty) and the first four activities, an absent one as
      an empty input. */
  function FormOf(c: EventConfig): (f: EventForm)
    ensures f.title == c.title && f.description == c.description && f.time == c.time
    ensures f.location == c.location && f.announcement == c.announcement
    ensures |f.activityInputs| == 4
    ensures forall k :: 0 <= k < 4 ==> f.activityInputs[k] == Some(if k < |c.activities| then c.activities[k] else "")
  {
    EventForm(c.title, c.description, c.time, c.location, c.announcement,
      seq(4, k requires 0 <= k < 4 => Some(if k < |c.activities| then c.activities[k] else "")))
  }

  /** An event as saveEventConfig can store it from a typed form: title,
      description and time filled in, every field trimmed, and one to four
      filled activities. */
  predicate IsEditable(c: EventConfig) {
    && c.title != "" && IsTrimmed(c.title)
    && c.description != "" && IsTrimmed(c.description)
    && c.time != "" && IsTrimmed(c.time)
    && IsTrimmed(c.location) && IsTrimmed(c.announcement)
    && 1 <= |c.activities| <= 4
    && forall k :: 0 <= k < |c.activities| ==> c.activities[k] != "" && IsTrimmed(c.activities[k])
  }

  /** Inputs showing the given activities, then empty ones, collect back
      to those activities. */
  lemma {:induction false} FilledActivitiesOfShown(acts: seq<string>, inputs: seq<Option<string>>)
    requires forall k :: 0 <= k < |acts| ==> acts[k] != "" && IsTrimmed(acts[k])
    requires forall k :: 0 <= k < |inputs| ==> inputs[k] == Some(if k < |acts| then acts[k] else "")
    ensures |inputs| <= |acts| ==> FilledActivities(inputs) == acts[..|inputs|]
    ensures |inputs| >= |acts| ==> FilledActivities(inputs) == acts
    decreases |inputs|
  {
    if inputs == [] {
      assert acts[..0] == [];
    } else {
      var m := |inputs| - 1;
      var prefix := inputs[..m];
      FilledActivitiesOfShown(acts, prefix);
      assert FilledActivities(inputs) == FilledActivities(prefix) + Activity(inputs[m]);
      if m < |acts| {
        ShownActivity(acts[m]);
        SliceSnoc(acts, m);
      } else {
        EmptyInputActivity();
        if m == |acts| {
          assert acts[..m] == acts;
        }
      }
    }
  }

  /** Opening the editor on a saved event and saving without changes keeps
      the event as it was. */
  lemma SaveUnchangedForm(c: EventConfig)
    requires IsEditable(c)
    ensures ConfigFromForm(FormOf(c)) == c
  {
    var f := FormOf(c);
    TrimmedIsOwnTrim(c.title);
    TrimmedIsOwnTrim(c.description);
    TrimmedIsOwnTrim(c.time);
    TrimmedIsOwnTrim(c.location);
    TrimmedIsOwnTrim(c.announcement);
    FilledActivitiesOfShown(c.activities, f.activityInputs);
  }

  // ------------------------------------------------------------------
  // The controller
  // ------------------------------------------------------------------

  class SaturdayRunClub {
    var participants: seq<Participant>
    var eventConfig: EventConfig
    var isAdminMode: bool
    /** localStorage 'saturday-run-participants' (None when the key is absent). */
    var storedParticipants: Option<seq<Participant>>
    /** localStorage 'saturday-run-event-config' (None when the key is absent). */
    var storedEventConfig: Option<StoredConfig>

    /** The constructor's field initialisation, over what the browser's
        storage already holds. */
    constructor (storedParticipants: Option<seq<Participant>>, storedEventConfig: Option<StoredConfig>)
      ensures participants == [] && eventConfig == DefaultEventConfig() && !isAdminMode
      ensures this.storedParticipants == storedParticipants && this.storedEventConfig == storedEventConfig
    {
      participants := [];
      isAdminMode := false;
      eventConfig := DefaultEventConfig();
      this.storedParticipants := storedParticipants;
      this.storedEventConfig := storedEventConfig;
    }

    /** checkAdminMode: the `admin` query parameter unlocks admin mode only
        when it equals the secret exactly. */
    method CheckAdminMode(adminParam: Option<string>)
      modifies this`isAdminMode
      ensures isAdminMode == (old(isAdminMode) || adminParam == Some(AdminKey))
    {
      if adminParam == Some(AdminKey) {
        isAdminMode := true;
      }
    }

    /** autoBackupToLocalStorage, run by every updateParticipantsDisplay: the
        real entries are written only when there is at least one. */
    method AutoBackup()
      modifies this`storedParticipants
      ensures storedParticipants == BackupAfter(participants, old(storedParticipants))
    {
      var realParticipants := RealParticipants(participants);
      if |realParticipants| > 0 {
        storedParticipants := Some(realParticipants);
      }
    }

    /** addParticipantLocally: the untrimmed name is upserted (a case-insensitive
        match only takes the new timestamp), and the whole list is stored. */
    method AddParticipantLocally(name: string, now: int)
      modifies this`participants, this`storedParticipants
      ensures participants == Upsert(old(participants), LocalEntry(name, now))
      ensures storedParticipants == Some(participants)
      ensures NamesUnique(old(participants)) ==> NamesUnique(participants)
    {
      var participant := LocalEntry(name, now);
      var existing := Find(participants, NameKey(name));
      if existing.Some? {
        participants := participants[existing.value := participants[existing.value].(timestamp := now)];
      } else {
        participants := participants + [participant];
      }
      assert participants == Upsert(old(participants), participant);
      if NamesUnique(old(participants)) {
        UpsertKeepsNamesUnique(old(participants), participant);
      }
      AutoBackup();
      storedParticipants := Some(participants);
    }

    /** submitParticipation: the server's list when it accepted the POST,
        and the local upsert of the name as typed otherwise. */
    method SubmitParticipation(name: string, reply: ApiReply, now: int)
      modifies this`participants, this`storedParticipants
      ensures reply.Accepted? ==> participants == reply.participants
      ensures reply.Accepted? ==> storedParticipants == BackupAfter(participants, old(storedParticipants))
      ensures reply.Unavailable? ==>
        participants == Upsert(old(participants), LocalEntry(name, now)) && storedParticipants == Some(participants)
    {
      match reply {
        case Accepted(listed) =>
          participants := listed;
          AutoBackup();
        case Unavailable =>
          AddParticipantLocally(name, now);
      }
    }

    /** handleJoinSubmission: only a missing or empty field is refused with
        the validation alert; anything else, whitespace included, is
        submitted. Writes to localStorage are taken to succeed, so the error
        alert shown when the local save throws is not part of this model. */
    method HandleJoinSubmission(name: Option<string>, reply: ApiReply, now: int) returns (alerted: bool)
      modifies this`participants, this`storedParticipants
      ensures alerted <==> name.None? || name.value == ""
      ensures alerted ==> participants == old(participants) && storedParticipants == old(storedParticipants)
      ensures !alerted && reply.Accepted? ==> participants == reply.participants
      ensures !alerted && reply.Accepted? ==> storedParticipants == BackupAfter(participants, old(storedParticipants))
      ensures !alerted && reply.Unavailable? ==> participants == Upsert(old(participants), LocalEntry(name.value, now))
      ensures !alerted && reply.Unavailable? ==> storedParticipants == Some(participants)
    {
      if name.None? || name.value == "" {
        return true;
      }
      SubmitParticipation(name.value, reply, now);
      return false;
    }

    /** confirmAddParticipant: the admin's quick add trims the name and
        refuses a blank one or one already present up to case, leaving
        everything unchanged; otherwise it appends one record at the end. */
    method ConfirmAddParticipant(input: string, now: int) returns (added: bool)
      modifies this`participants, this`storedParticipants
      ensures added <==> !IsBlank(input) && FirstMatch(old(participants), NameKey(Trim(input))).None?
      ensures added ==> participants == old(participants) + [LocalEntry(Trim(input), now)]
      ensures added ==> storedParticipants == Some(RealParticipants(participants))
      ensures !added ==> participants == old(participants) && storedParticipants == old(storedParticipants)
      ensures NamesUnique(old(participants)) ==> NamesUnique(participants)
    {
      var name := Trim(input);
      if name == "" {
        return false;
      }
      var duplicate := Find(participants, NameKey(name));
      if duplicate.Some? {
        return false;
      }
      var participant := LocalEntry(name, now);
      participants := participants + [participant];
      storedParticipants := Some(participants);
      assert participant in RealParticipants(participants);
      AutoBackup();
      added := true;
    }

    /** removeParticipant: an index outside the list, or a declined
        confirmation, changes nothing; otherwise exactly that entry goes and
        the others keep their order. The full list is stored, then the
        backup overwrites it with the real entries if there are any. */
    method RemoveParticipant(index: int, confirmed: bool)
      modifies this`participants, this`storedParticipants
      ensures !(0 <= index < |old(participants)| && confirmed) ==>
        participants == old(participants) && storedParticipants == old(storedParticipants)
      ensures 0 <= index < |old(participants)| && confirmed ==>
        && participants == old(participants)[..index] + old(participants)[index + 1..]
        && storedParticipants == BackupAfter(participants, Some(participants))
    {
      if 0 <= index < |participants| {
        if confirmed {
          participants := participants[..index] + participants[index + 1..];
          storedParticipants := Some(participants);
          AutoBackup();
        }
      }
    }

    /** clearAllParticipants: after a confirmation the list is empty either
        way. When the server cleared its store the backup is left as it was,
        because an empty list is never backed up; when the server could not
        be reached the stored list is removed. */
    method ClearAllParticipants(confirmed: bool, serverCleared: bool)
      modifies this`participants, this`storedParticipants
      ensures !confirmed ==> participants == old(participants) && storedParticipants == old(storedParticipants)
      ensures confirmed ==> participants == []
      ensures confirmed ==> storedParticipants == if serverCleared then old(storedParticipants) else None
    {
      if confirmed {
        participants := [];
        if !serverCleared {
          storedParticipants := None;
        }
        AutoBackup();
      }
    }

    /** exportParticipants: nothing for an empty list; otherwise the text
        file's contents. */
    method ExportParticipants() returns (text: Option<string>)
      ensures text.None? <==> participants == []
      ensures text.Some? ==> text.value == ExportText(participants)
    {
      if |participants| == 0 {
        return None;
      }
      var participantNames := Names(participants);
      text := Some(Join(participantNames, "\n"));
    }

    /** restoreFromLocalStorage, corrected: each real entry of the backup is
        posted to the server in turn (what the missing `addParticipantToAPI`
        evidently stood for), so that every name the server accepts ends up
        in its store. */
    method RestoreFromLocalStorage(confirmed: bool, server: Server.DataFile, ids: seq<string>, now: int)
      returns (notice: RestoreNotice)
      requires storedParticipants.Some? ==> |ids| == |RealParticipants(storedParticipants.value)|
      modifies server
      ensures notice != RestoreFailed
      ensures notice.Restored? ==> confirmed && storedParticipants.Some?
      ensures notice.Restored? ==>
        var names := Names(RealParticipants(storedParticipants.value));
        && notice.count == |names|
        && server.participants == RestoredStore(old(server.participants), names, ids, now)
      ensures !notice.Restored? ==> server.participants == old(server.participants)
      ensures notice == NoBackup <==> storedParticipants.None?
      ensures notice == EmptyBackup <==> storedParticipants == Some([])
      ensures notice == Cancelled <==> storedParticipants.Some? && storedParticipants.value != [] && !confirmed
      ensures storedParticipants.Some? && storedParticipants.value != [] && confirmed ==> notice.Restored?
    {
      if storedParticipants.None? {
        return NoBackup;
      }
      var saved := storedParticipants.value;
      if |saved| == 0 {
        return EmptyBackup;
      }
      var realParticipants := RealParticipants(saved);
      if !confirmed {
        return Cancelled;
      }
      var names := Names(realParticipants);
      PostAll(server, names, ids, now);
      notice := Restored(|names|);
    }

    /** loadEventConfig: nothing stored keeps the current configuration, an
        unreadable value resets it to the defaults, and stored keys are
        merged over the defaults. */
    method LoadEventConfig()
      modifies this`eventConfig
      ensures storedEventConfig.None? ==> eventConfig == old(eventConfig)
      ensures storedEventConfig == Some(Unreadable) ==> eventConfig == DefaultEventConfig()
      ensures storedEventConfig.Some? && storedEventConfig.value.Keys? ==>
        eventConfig == MergeOverDefaults(storedEventConfig.value)
    {
      match storedEventConfig {
        case None =>
        case Some(stored) =>
          if stored.Unreadable? {
            eventConfig := DefaultEventConfig();
          } else {
            eventConfig := MergeOverDefaults(stored);
          }
      }
    }

    /** saveEventConfig: the configuration built from the form replaces the
        current one and is stored. */
    method SaveEventConfig(form: EventForm)
      requires |form.activityInputs| == 4
      modifies this`eventConfig, this`storedEventConfig
      ensures eventConfig == ConfigFromForm(form)
      ensures storedEventConfig == Some(Serialize(eventConfig))
    {
      var d := DefaultEventConfig();
      var activities := CollectActivities(form.activityInputs);
      if |activities| == 0 {
        activities := d.activities;
      }
      eventConfig := EventConfig(
        TrimOr(form.title, d.title),
        TrimOr(form.description, d.description),
        TrimOr(form.time, d.time),
        Trim(form.location),
        Trim(form.announcement),
        activities);
      storedEventConfig := Some(Serialize(eventConfig));
    }

    /** resetEventConfig: after a confirmation the defaults replace the
        configuration and are stored. */
    method ResetEventConfig(confirmed: bool)
      modifies this`eventConfig, this`storedEventConfig
      ensures confirmed ==> eventConfig == DefaultEventConfig() && storedEventConfig == Some(Serialize(eventConfig))
      ensures !confirmed ==> eventConfig == old(eventConfig) && storedEventConfig == old(storedEventConfig)
    {
      if confirmed {
        eventConfig := DefaultEventConfig();
        storedEventConfig := Some(Serialize(eventConfig));
      }
    }
  }
}
