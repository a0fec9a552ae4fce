/**
 * The résumé table and the handlers that change or read one row: create (app.py:115-173),
 * edit (app.py:175-236), delete (app.py:238-251) and download (app.py:254-351).
 * The database is a map from id to row; each handler is a transition function on that map,
 * and `ResumeStore` holds the map and performs the transitions in place.
 */
module Store {

  import opened Wrappers
  import opened Records
  import PdfStory

  type Rows = map<nat, Resume>

  /** What a handler ends in: success, a 404 from `get_or_404`, the permission redirect, or
      the refused commit of a row without a title (the column is NOT NULL). */
  datatype Outcome<T> = Ok(value: T) | NotFound | Forbidden | MissingTitle

  /** The permission test shared by edit, delete and download: owner or administrator. */
  predicate CanAccess(actor: User, r: Resume) {
    r.userId == actor.id || actor.role == "admin"
  }

  /** `get_or_404` followed by the permission test. */
  function Fetch(rows: Rows, actor: User, id: nat): (out: Outcome<Resume>)
    ensures out.NotFound? <==> id !in rows
    ensures out.Forbidden? <==> id in rows && !CanAccess(actor, rows[id])
    ensures out.Ok? <==> id in rows && CanAccess(actor, rows[id])
    ensures out.Ok? ==> out.value == rows[id]
  {
    if id !in rows then NotFound
    else if !CanAccess(actor, rows[id]) then Forbidden
    else Ok(rows[id])
  }

  /** Ids are positive and below the next id to hand out. */
  predicate ValidRows(rows: Rows, nextId: nat) {
    forall id | id in rows :: 0 < id < nextId
  }

  /** The ids of the résumés a user owns (the dashboard query). */
  function OwnedIds(rows: Rows, owner: nat): (ids: set<nat>)
    ensures forall id :: id in ids <==> id in rows && rows[id].userId == owner
  {
    set id | id in rows && rows[id].userId == owner
  }

  // ---------------------------------------------------------------------------------------------
  // Row contents
  // ---------------------------------------------------------------------------------------------

  /** A new row for a submission that has a title; both timestamps are the creation time. */
  function NewResume(fields: ResumeFields, owner: nat, now: int): (r: Resume)
    requires fields.title.Some?
    ensures r.userId == owner && r.createdAt == now && r.updatedAt == now
    ensures r.title == fields.title.value && r.summary == fields.summary
    ensures r.education == fields.education && r.experience == fields.experience
    ensures r.skills == fields.skills && r.awards == fields.awards
  {
    Resume(fields.title.value, fields.summary, fields.education, fields.experience,
           fields.skills, fields.awards, owner, now, now)
  }

  /** An edit replaces every content column and the update time; owner and creation time stay. */
  function Overwrite(r: Resume, fields: ResumeFields, now: int): (r': Resume)
    requires fields.title.Some?
    ensures r'.userId == r.userId && r'.createdAt == r.createdAt && r'.updatedAt == now
    ensures r' == NewResume(fields, r.userId, now).(createdAt := r.createdAt)
  {
    r.(title := fields.title.value, summary := fields.summary, education := fields.education,
       experience := fields.experience, skills := fields.skills, awards := fields.awards,
       updatedAt := now)
  }

  // ---------------------------------------------------------------------------------------------
  // Transitions
  // ---------------------------------------------------------------------------------------------

  /** Creating: a titled submission becomes a new row under the next id, owned by the actor. */
  function CreateRows(rows: Rows, nextId: nat, actor: User, fields: ResumeFields, now: int): (res: (Outcome<nat>, Rows, nat))
    ensures fields.title.None? ==> res == (MissingTitle, rows, nextId)
    ensures fields.title.Some? ==>
      (res.0 == Ok(nextId) && res.2 == nextId + 1
       && nextId in res.1 && res.1[nextId] == NewResume(fields, actor.id, now))
    ensures forall id | id in rows :: id in res.1 && (id != nextId ==> res.1[id] == rows[id])
    ensures forall id | id in res.1 :: id in rows || (fields.title.Some? && id == nextId)
  {
    if fields.title.None? then (MissingTitle, rows, nextId)
    else (Ok(nextId), rows[nextId := NewResume(fields, actor.id, now)], nextId + 1)
  }

  /** Editing: 404, then the permission test, then the title; only a permitted, titled edit writes. */
  function EditRows(rows: Rows, actor: User, id: nat, fields: ResumeFields, now: int): (res: (Outcome<()>, Rows))
    ensures res.0.Ok? <==> Fetch(rows, actor, id).Ok? && fields.title.Some?
    ensures res.0.MissingTitle? <==> Fetch(rows, actor, id).Ok? && fields.title.None?
    ensures res.0.NotFound? <==> id !in rows
    ensures res.0.Forbidden? <==> id in rows && !CanAccess(actor, rows[id])
    ensures !res.0.Ok? ==> res.1 == rows
    ensures res.1.Keys == rows.Keys
    ensures forall other | other in rows && other != id :: res.1[other] == rows[other]
  {
    match Fetch(rows, actor, id)
    case NotFound => (NotFound, rows)
    case Forbidden => (Forbidden, rows)
    case MissingTitle => (MissingTitle, rows)
    case Ok(r) =>
      if fields.title.None? then (MissingTitle, rows)
      else (Ok(()), rows[id := Overwrite(r, fields, now)])
  }

  /** Deleting: 404, then the permission test; a permitted delete removes exactly that row. */
  function DeleteRows(rows: Rows, actor: User, id: nat): (res: (Outcome<()>, Rows))
    ensures res.0.Ok? <==> Fetch(rows, actor, id).Ok?
    ensures res.0.NotFound? <==> id !in rows
    ensures res.0.Forbidden? <==> id in rows && !CanAccess(actor, rows[id])
    ensures res.0.Ok? ==> res.1 == rows - {id}
    ensures !res.0.Ok? ==> res.1 == rows
  {
    match Fetch(rows, actor, id)
    case Ok(_) => (Ok(()), rows - {id})
    case NotFound => (NotFound, rows)
    case Forbidden => (Forbidden, rows)
    case MissingTitle => (MissingTitle, rows)
  }

  /** The attachment the download handler sends. */
  datatype Attachment = Attachment(story: seq<PdfStory.Element>, name: string)

  /** Downloading: 404, then the permission test, then the rendered story and file name. */
  function DownloadOf(rows: Rows, actor: User, id: nat): (out: Outcome<Attachment>)
    ensures out.Ok? <==> Fetch(rows, actor, id).Ok?
    ensures out.Ok? ==>
      (out.value.story == PdfStory.StoryOf(rows[id]) && out.value.name == PdfStory.DownloadName(rows[id].title))
    ensures out.NotFound? <==> id !in rows
    ensures out.Forbidden? <==> id in rows && !CanAccess(actor, rows[id])
  {
    match Fetch(rows, actor, id)
    case Ok(r) => Ok(Attachment(PdfStory.StoryOf(r), PdfStory.DownloadName(r.title)))
    case NotFound => NotFound
    case Forbidden => Forbidden
    case MissingTitle => MissingTitle
  }

  // ---------------------------------------------------------------------------------------------
  // Properties of the transitions
  // ---------------------------------------------------------------------------------------------

  /** An edit never changes who owns a row, nor when it was created. */
  lemma EditKeepsOwnership(rows: Rows, actor: User, id: nat, fields: ResumeFields, now: int)
    ensures var rows' := EditRows(rows, actor, id, fields, now).1;
      forall k | k in rows :: k in rows' && rows'[k].userId == rows[k].userId && rows'[k].createdAt == rows[k].createdAt
  {
    var rows' := EditRows(rows, actor, id, fields, now).1;
    forall k | k in rows ensures k in rows' && rows'[k].userId == rows[k].userId && rows'[k].createdAt == rows[k].createdAt {
      if k == id && EditRows(rows, actor, id, fields, now).0.Ok? {
        assert rows'[k] == Overwrite(rows[k], fields, now);
      }
    }
  }

  /** A permitted, titled edit leaves the row holding exactly the submitted content. */
  lemma EditWritesSubmission(rows: Rows, actor: User, id: nat, fields: ResumeFields, now: int)
    requires id in rows && CanAccess(actor, rows[id]) && fields.title.Some?
    ensures var r := EditRows(rows, actor, id, fields, now).1[id];
      r.title == fields.title.value && r.summary == fields.summary
      && r.education == fields.education && r.experience == fields.experience
      && r.skills == fields.skills && r.awards == fields.awards && r.updatedAt == now
  {
  }

  /** Deleting a row removes it from its owner's list and from no one else's. */
  lemma DeleteOwned(rows: Rows, actor: User, id: nat, owner: nat)
    requires id in rows && CanAccess(actor, rows[id])
    ensures OwnedIds(DeleteRows(rows, actor, id).1, owner) == OwnedIds(rows, owner) - {id}
  {
  }

  /** A created row is new: it joins its author's list, and no one else's list changes. */
  lemma CreateOwned(rows: Rows, nextId: nat, actor: User, fields: ResumeFields, now: int, owner: nat)
    requires ValidRows(rows, nextId) && fields.title.Some?
    ensures var rows' := CreateRows(rows, nextId, actor, fields, now).1;
      nextId !in rows
      && OwnedIds(rows', owner) == OwnedIds(rows, owner) + (if owner == actor.id then {nextId} else {})
  {
  }

  /** An access refused by the permission test leaves every row as it was, whatever the operation. */
  lemma DeniedChangesNothing(rows: Rows, actor: User, id: nat, fields: ResumeFields, now: int)
    requires id in rows && rows[id].userId != actor.id && actor.role != "admin"
    ensures EditRows(rows, actor, id, fields, now) == (Forbidden, rows)
    ensures DeleteRows(rows, actor, id) == (Forbidden, rows)
    ensures DownloadOf(rows, actor, id) == Forbidden
  {
  }

  /** Every transition keeps ids positive and below the next id. */
  lemma TransitionsKeepIdsValid(rows: Rows, nextId: nat, actor: User, id: nat, fields: ResumeFields, now: int)
    requires nextId > 0 && ValidRows(rows, nextId)
    ensures var c := CreateRows(rows, nextId, actor, fields, now); c.2 > 0 && ValidRows(c.1, c.2)
    ensures ValidRows(EditRows(rows, actor, id, fields, now).1, nextId)
    ensures ValidRows(DeleteRows(rows, actor, id).1, nextId)
  {
  }

  // ---------------------------------------------------------------------------------------------
  // The store
  // ---------------------------------------------------------------------------------------------

  class ResumeStore {

    var rows: Rows
    var nextId: nat

    ghost predicate Valid()
      reads this
    {
      nextId > 0 && ValidRows(rows, nextId)
    }

    constructor()
      ensures Valid() && rows == map[] && nextId == 1
    {
      rows := map[];
      nextId := 1;
    }

    /** POST /create_resume, once the form is decoded: add the row and commit. */
    method Create(actor: User, fields: ResumeFields, now: int) returns (out: Outcome<nat>)
      requires Valid()
      modifies this
      ensures Valid()
      ensures (out, rows, nextId) == CreateRows(old(rows), old(nextId), actor, fields, now)
    {
      TransitionsKeepIdsValid(rows, nextId, actor, 0, fields, now);
      if fields.title.None? {
        out := MissingTitle;
      } else {
        out := Ok(nextId);
        rows := rows[nextId := NewResume(fields, actor.id, now)];
        nextId := nextId + 1;
      }
    }

    /** POST /edit_resume/<id> with the decoded form: look the row up, check permission, overwrite, commit. */
    method Edit(actor: User, id: nat, fields: ResumeFields, now: int) returns (out: Outcome<()>)
      requires Valid()
      modifies this
      ensures Valid() && nextId == old(nextId)
      ensures (out, rows) == EditRows(old(rows), actor, id, fields, now)
    {
      var found := Fetch(rows, actor, id);
      if found.NotFound? {
        out := NotFound;
      } else if found.Forbidden? {
        out := Forbidden;
      } else {
        TransitionsKeepIdsValid(rows, nextId, actor, id, fields, now);
        if fields.title.None? {
          out := MissingTitle;
        } else {
          rows := rows[id := Overwrite(found.value, fields, now)];
          out := Ok(());
        }
      }
    }

    /** GET /delete_resume/<id>: look the row up, check permission, delete, commit. */
    method Delete(actor: User, id: nat) returns (out: Outcome<()>)
      requires Valid()
      modifies this
      ensures Valid() && nextId == old(nextId)
      ensures (out, rows) == DeleteRows(old(rows), actor, id)
    {
      var found := Fetch(rows, actor, id);
      if found.Ok? {
        rows := rows - {id};
        out := Ok(());
      } else if found.NotFound? {
        out := NotFound;
      } else {
        out := Forbidden;
      }
    }

    /** GET /download_resume/<id>: look the row up, check permission, build the story and name. */
    method Download(actor: User, id: nat) returns (out: Outcome<Attachment>)
      ensures out == DownloadOf(rows, actor, id)
    {
      var found := Fetch(rows, actor, id);
      if found.Ok? {
        var story := PdfStory.BuildStory(found.value);
        out := Ok(Attachment(story, PdfStory.DownloadName(found.value.title)));
      } else if found.NotFound? {
        out := NotFound;
      } else {
        out := Forbidden;
      }
    }

    /** GET /dashboard: the ids of the actor's own résumés. */
    function Dashboard(actor: User): (ids: set<nat>)
      reads this
      ensures forall id :: id in ids <==> id in rows && rows[id].userId == actor.id
    {
      OwnedIds(rows, actor.id)
    }
  }
}
