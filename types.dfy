/**
 * Record shapes shared by the front-desk app's stores and screens
 * (src/types/index.ts), plus the one array primitive they all use.
 */
module Types {

  datatype Option<T> = None | Some(value: T)

  /** A local date and time, as `new Date('2024-01-15T10:30:00')` reads it. */
  datatype Timestamp = Timestamp(year: nat, month: nat, day: nat, hour: nat, minute: nat, second: nat)

  /** Strict chronological order on timestamps (lexicographic on the fields). */
  predicate Before(a: Timestamp, b: Timestamp)
  {
    if a.year != b.year then a.year < b.year
    else if a.month != b.month then a.month < b.month
    else if a.day != b.day then a.day < b.day
    else if a.hour != b.hour then a.hour < b.hour
    else if a.minute != b.minute then a.minute < b.minute
    else a.second < b.second
  }

  /** A stored visitor record (`VisitorFormData`): `email` is optional. */
  datatype Visitor = Visitor(
    name: string,
    email: Option<string>,
    phone: string,
    purpose: string,
    source: string,
    photo: string,
    signature: string,
    branch: string,
    timestamp: Timestamp)

  datatype LoginCredentials = LoginCredentials(email: string, password: string, branch: string)

  /** The session user handed to the auth store; it has no password field. */
  datatype AuthUser = AuthUser(id: string, email: string, branch: string, token: string)

  /** One entry of an option table: `VisitPurpose` and `Source` share this shape
      (`caption` is the source's `label` field; `label` is a Dafny keyword). */
  datatype Choice = Choice(id: string, caption: string, value: string)

  type VisitPurpose = Choice
  type Source = Choice

  datatype Branch = Branch(id: string, name: string, address: Option<string>)

  /**
   * JavaScript's `s.slice(0, end)` for an integer `end`: a negative `end`
   * counts back from the length, and any `end` is clamped to `[0, |s|]`.
   */
  function SliceTo<T>(s: seq<T>, end: int): (r: seq<T>)
    ensures r <= s
    ensures end >= 0 ==> |r| == if end < |s| then end else |s|
    ensures end < 0 ==> |r| == if |s| + end > 0 then |s| + end else 0
  {
    if end < 0 then (if |s| + end > 0 then s[..|s| + end] else [])
    else if end < |s| then s[..end]
    else s
  }
}
