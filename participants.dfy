/** The participant record and the name-keyed upsert shared by the server's
    POST handler (server.js) and the browser's local fallback (js/app.js). */
module Participants {
  import opened Wrappers
  import opened Text

  /** One registration. `id` is set by the server and absent on records the
      browser adds itself; `kind` is the optional `type` field that marks the
      system entries the backup filter drops. Timestamps are milliseconds. */
  datatype Participant = Participant(id: Option<string>, name: string, timestamp: int, kind: Option<string>)

  /** Names are compared after `toLowerCase()`. */
  function NameKey(name: string): string {
    ToLower(name)
  }

  predicate Matches(p: Participant, key: string) {
    NameKey(p.name) == key
  }

  /** No two records share a name up to case. */
  predicate NamesUnique(ps: seq<Participant>) {
    forall i, j :: 0 <= i < j < |ps| ==> NameKey(ps[i].name) != NameKey(ps[j].name)
  }

  /** The index `Array.prototype.find` stops at: the first record whose name
      has the given key, or None when no record has it. */
  function FirstMatch(ps: seq<Participant>, key: string): (r: Option<nat>)
    ensures r.None? <==> forall j :: 0 <= j < |ps| ==> !Matches(ps[j], key)
    ensures r.Some? ==> r.value < |ps| && Matches(ps[r.value], key)
    ensures r.Some? ==> forall j :: 0 <= j < r.value ==> !Matches(ps[j], key)
  {
    if ps == [] then None
    else if Matches(ps[0], key) then Some(0)
    else match FirstMatch(ps[1..], key)
      case None => None
      case Some(i) => Some(i + 1)
  }

  /** The `find` loop itself: scans the records in order. */
  method Find(ps: seq<Participant>, key: string) returns (r: Option<nat>)
    ensures r == FirstMatch(ps, key)
  {
    var i := 0;
    while i < |ps|
      invariant 0 <= i <= |ps|
      invariant forall j :: 0 <= j < i ==> !Matches(ps[j], key)
    {
      if NameKey(ps[i].name) == key {
        return Some(i);
      }
      i := i + 1;
    }
    return None;
  }

  /** `Array.prototype.filter`: the records that satisfy `keep`, in order. */
  function Filter(ps: seq<Participant>, keep: Participant -> bool): (r: seq<Participant>)
    ensures |r| <= |ps|
    ensures forall p :: p in r <==> p in ps && keep(p)
  {
    if ps == [] then []
    else (if keep(ps[0]) then [ps[0]] else []) + Filter(ps[1..], keep)
  }

  /** Filtering keeps the order: filtering a concatenation is concatenating
      the filtered parts. */
  lemma {:induction false} FilterAppend(a: seq<Participant>, b: seq<Participant>, keep: Participant -> bool)
    ensures Filter(a + b, keep) == Filter(a, keep) + Filter(b, keep)
  {
    if a == [] {
      assert a + b == b;
    } else {
      assert (a + b)[1..] == a[1..] + b;
      FilterAppend(a[1..], b, keep);
    }
  }

  /** Registration by name: if some record's name equals the new record's
      name up to case, the first such record takes the new timestamp and keeps
      everything else (its id and the casing of its name); otherwise the new
      record is appended. */
  function Upsert(ps: seq<Participant>, entry: Participant): (r: seq<Participant>)
    ensures FirstMatch(ps, NameKey(entry.name)).Some? ==>
      var i := FirstMatch(ps, NameKey(entry.name)).value;
      && |r| == |ps|
      && r[i] == ps[i].(timestamp := entry.timestamp)
      && forall j :: 0 <= j < |ps| && j != i ==> r[j] == ps[j]
    ensures FirstMatch(ps, NameKey(entry.name)).None? ==>
      |r| == |ps| + 1 && r[..|ps|] == ps && r[|ps|] == entry
  {
    match FirstMatch(ps, NameKey(entry.name))
    case Some(i) => ps[i := ps[i].(timestamp := entry.timestamp)]
    case None => ps + [entry]
  }

  /** Registration keeps names unique up to case. */
  lemma UpsertKeepsNamesUnique(ps: seq<Participant>, entry: Participant)
    requires NamesUnique(ps)
    ensures NamesUnique(Upsert(ps, entry))
  {
    var r := Upsert(ps, entry);
    var key := NameKey(entry.name);
    forall j | 0 <= j < |ps| ensures NameKey(r[j].name) == NameKey(ps[j].name) {
    }
    if FirstMatch(ps, key).None? {
      forall i, j | 0 <= i < j < |r| ensures NameKey(r[i].name) != NameKey(r[j].name) {
        if j == |ps| {
          assert !Matches(ps[i], key);
        }
      }
    }
  }

  /** After registration a record with the name is present (up to case) and
      carries the registration's timestamp. */
  lemma UpsertRecordsName(ps: seq<Participant>, entry: Participant)
    ensures var r := Upsert(ps, entry);
      exists i :: 0 <= i < |r| && Matches(r[i], NameKey(entry.name)) && r[i].timestamp == entry.timestamp
  {
    var r := Upsert(ps, entry);
    match FirstMatch(ps, NameKey(entry.name))
    case Some(i) =>
      assert Matches(r[i], NameKey(entry.name));
    case None =>
      assert Matches(r[|ps|], NameKey(entry.name));
  }

  /** A name already present stays present: registration never removes a
      record nor renames one. */
  lemma UpsertKeepsKeys(ps: seq<Participant>, entry: Participant, key: string)
    requires FirstMatch(ps, key).Some?
    ensures FirstMatch(Upsert(ps, entry), key).Some?
  {
    var i := FirstMatch(ps, key).value;
    var r := Upsert(ps, entry);
    assert r[i].name == ps[i].name;
    assert Matches(r[i], key);
  }

  /** Registering the same name twice, in any casing, leaves one record for it,
      holding the second registration's timestamp; the second registration
      does not grow the list. */
  lemma {:induction false} UpsertTwice(ps: seq<Participant>, a: Participant, b: Participant)
    requires NamesUnique(ps)
    requires NameKey(a.name) == NameKey(b.name)
    ensures var r1 := Upsert(ps, a);
      var r2 := Upsert(r1, b);
      && |r2| == |r1|
      && FirstMatch(r2, NameKey(b.name)).Some?
      && r2[FirstMatch(r2, NameKey(b.name)).value].timestamp == b.timestamp
      && forall j :: 0 <= j < |r2| && j != FirstMatch(r2, NameKey(b.name)).value ==> !Matches(r2[j], NameKey(b.name))
  {
    var key := NameKey(b.name);
    var r1 := Upsert(ps, a);
    UpsertKeepsNamesUnique(ps, a);
    UpsertRecordsName(ps, a);
    var i :| 0 <= i < |r1| && Matches(r1[i], key) && r1[i].timestamp == a.timestamp;
    assert FirstMatch(r1, key).Some?;
    var k := FirstMatch(r1, key).value;
    assert k == i;
    var r2 := Upsert(r1, b);
    forall j | 0 <= j < |r2| && j != k ensures !Matches(r2[j], key) {
      if j < k { assert NameKey(r1[j].name) != NameKey(r1[k].name); }
      else { assert NameKey(r1[k].name) != NameKey(r1[j].name); }
    }
  }
}
