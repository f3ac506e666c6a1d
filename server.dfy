/** The participant API of server.js: GET lists the last seven days of
    registrations, POST registers a name, DELETE clears the store for the
    admin. The store is participants.json, modelled as the field of a class. */
module Server {
  import opened Wrappers
  import opened Text
  import opened Participants

  /** The shared secret DELETE /api/participants demands. */
  const AdminKey: string := "runclub2024"

  /** Seven days in milliseconds: the length of the active window. */
  const WeekMs: int := 7 * 24 * 60 * 60 * 1000

  /** The JSON reply: `success: true` with the windowed list and its count,
      or an error status with its message. */
  datatype Response =
    | Listed(message: Option<string>, participants: seq<Participant>, count: nat)
    | Failed(status: nat, error: string)

  /** `new Date(p.timestamp) > weekAgo`, strictly. */
  predicate IsRecent(p: Participant, now: int) {
    p.timestamp > now - WeekMs
  }

  /** The seven-day window: the stored records registered or refreshed less
      than a week before `now`, in stored order (see FilterAppend). */
  function ActiveWindow(ps: seq<Participant>, now: int): (r: seq<Participant>)
    ensures |r| <= |ps|
    ensures forall p :: p in r <==> p in ps && IsRecent(p, now)
  {
    Filter(ps, p => IsRecent(p, now))
  }

  /** Validation of the POST body: a missing or empty name, or one made only
      of whitespace, is refused with 400; otherwise the name to store is the
      trimmed one, which is non-empty and has no whitespace at either end. */
  function CheckName(name: Option<string>): (r: Result<string, Response>)
    ensures r.Ok? <==> name.Some? && !IsBlank(name.value)
    ensures r.Ok? ==> r.value == Trim(name.value)
    ensures r.Ok? ==> r.value != [] && !IsWhitespace(r.value[0]) && !IsWhitespace(r.value[|r.value| - 1])
    ensures r.Err? ==> r.error == Failed(400, "Name is required")
  {
    if name.None? || name.value == "" || |Trim(name.value)| == 0 then Err(Failed(400, "Name is required"))
    else Ok(Trim(name.value))
  }

  /** The record a first registration of `trimmed` appends. */
  function NewRecord(id: string, trimmed: string, now: int): Participant {
    Participant(Some(id), trimmed, now, None)
  }

  /** The record just registered is always in the list the POST returns. */
  lemma RegisteredIsListed(ps: seq<Participant>, id: string, trimmed: string, now: int)
    ensures FirstMatch(ActiveWindow(Upsert(ps, NewRecord(id, trimmed, now)), now), NameKey(trimmed)).Some?
  {
    var e := NewRecord(id, trimmed, now);
    var r := Upsert(ps, e);
    UpsertRecordsName(ps, e);
    var i :| 0 <= i < |r| && Matches(r[i], NameKey(trimmed)) && r[i].timestamp == now;
    var w := ActiveWindow(r, now);
    assert r[i] in w;
    var j :| 0 <= j < |w| && w[j] == r[i];
    assert Matches(w[j], NameKey(trimmed));
  }

  /** A registration under another name leaves a stored record in the store,
      however old it is, while the window hides it once a week has passed. */
  lemma OtherRecordsStay(ps: seq<Participant>, e: Participant, p: Participant, now: int)
    requires p in ps && NameKey(p.name) != NameKey(e.name)
    ensures p in Upsert(ps, e)
    ensures !IsRecent(p, now) ==> p !in ActiveWindow(Upsert(ps, e), now)
  {
    var j :| 0 <= j < |ps| && ps[j] == p;
    var r := Upsert(ps, e);
    assert r[j] == p;
  }

  /** participants.json: every record ever stored, stale ones included. */
  class DataFile {
    var participants: seq<Participant>

    /** initializeData: a missing file starts as an empty array. */
    constructor ()
      ensures participants == []
    {
      participants := [];
    }

    /** GET /api/participants: the seven-day window and its size. */
    method List(now: int) returns (resp: Response)
      ensures resp.Listed? && resp.message.None?
      ensures resp.participants == ActiveWindow(participants, now)
      ensures resp.count == |resp.participants|
    {
      var stored := participants;
      var recent := ActiveWindow(stored, now);
      resp := Listed(None, recent, |recent|);
    }

    /** POST /api/participants with body `{ name }`. `id` stands for
        `Date.now().toString()`, `now` for the clock and `saved` for whether
        writing participants.json succeeded. A refused name or a failed write
        leaves the file as it was; otherwise the whole list, stale records
        included, is written back and the window of it is returned. */
    method Register(name: Option<string>, id: string, now: int, saved: bool) returns (resp: Response)
      modifies this
      ensures CheckName(name).Err? ==> resp == CheckName(name).error && participants == old(participants)
      ensures CheckName(name).Ok? && !saved ==>
        resp == Failed(500, "Failed to save participant") && participants == old(participants)
      ensures CheckName(name).Ok? && saved ==>
        && participants == Upsert(old(participants), NewRecord(id, CheckName(name).value, now))
        && resp == Listed(Some("Participant registered successfully"), ActiveWindow(participants, now), |ActiveWindow(participants, now)|)
      ensures NamesUnique(old(participants)) ==> NamesUnique(participants)
    {
      var checked := CheckName(name);
      if checked.Err? {
        resp := checked.error;
        return;
      }
      var trimmed := checked.value;
      var ps := participants;
      var found := Find(ps, NameKey(trimmed));
      if found.Some? {
        ps := ps[found.value := ps[found.value].(timestamp := now)];
      } else {
        ps := ps + [NewRecord(id, trimmed, now)];
      }
      assert ps == Upsert(participants, NewRecord(id, trimmed, now));
      if saved {
        if NamesUnique(participants) {
          UpsertKeepsNamesUnique(participants, NewRecord(id, trimmed, now));
        }
        participants := ps;
        var recent := ActiveWindow(ps, now);
        resp := Listed(Some("Participant registered successfully"), recent, |recent|);
      } else {
        resp := Failed(500, "Failed to save participant");
      }
    }

    /** DELETE /api/participants with body `{ admin_key }`. Any key but the
        secret is refused with 403 and changes nothing. With the secret the
        reply reports an empty list whether or not writing the empty array
        succeeded, because the handler ignores that result. */
    method Clear(adminKey: Option<string>, saved: bool) returns (resp: Response)
      modifies this
      ensures adminKey != Some(AdminKey) ==> resp == Failed(403, "Unauthorized") && participants == old(participants)
      ensures adminKey == Some(AdminKey) ==> resp == Listed(Some("All participants cleared"), [], 0)
      ensures adminKey == Some(AdminKey) ==> participants == if saved then [] else old(participants)
    {
      if adminKey != Some(AdminKey) {
        resp := Failed(403, "Unauthorized");
        return;
      }
      if saved {
        participants := [];
      }
      resp := Listed(Some("All participants cleared"), [], 0);
    }
  }
}
