/**
 * The entities of the résumé application (app.py:27-45), as values.
 * A field the form may leave out is an `Option<string>`; database ids are naturals
 * and timestamps are abstract integers supplied by the caller.
 */
module Records {

  import opened Wrappers

  /** An account: its id and its role ("user" or "admin"; any other text is a plain role). */
  datatype User = User(id: nat, role: string)

  /** One `education[i][...]` group of the form; the institution is the group's anchor and is always present. */
  datatype Education = Education(
    institution: string,
    degree: Option<string>,
    field: Option<string>,
    startDate: Option<string>,
    endDate: Option<string>,
    description: Option<string>)

  /** One `experience[i][...]` group of the form; the company is the anchor. */
  datatype Experience = Experience(
    company: string,
    position: Option<string>,
    startDate: Option<string>,
    endDate: Option<string>,
    description: Option<string>)

  /** What a create or edit submission carries, after decoding. */
  datatype ResumeFields = ResumeFields(
    title: Option<string>,
    summary: Option<string>,
    education: seq<Education>,
    experience: seq<Experience>,
    skills: seq<string>,
    awards: seq<string>)

  /** A stored résumé row; the title column is NOT NULL, so a stored résumé always has one. */
  datatype Resume = Resume(
    title: string,
    summary: Option<string>,
    education: seq<Education>,
    experience: seq<Experience>,
    skills: seq<string>,
    awards: seq<string>,
    userId: nat,
    createdAt: int,
    updatedAt: int)

  /** Python truthiness of an optional string: present and non-empty. */
  predicate HasText(o: Option<string>) {
    o.Some? && o.value != ""
  }
}
