/** Values shared by the server handlers and the browser components. */
module Types {

  datatype Option<+T> = None | Some(value: T)

  /** The database's `_id` of an image record (an ObjectId, abstracted to a number). */
  type Id = nat

  /**
   * One document of the `images` collection: `_id`, `url`, `publicId`,
   * `title`, `caption` and `createdAt`. `createdAt` is an ISO-8601 string
   * in the source; fixed-width ISO strings order like the instants they
   * denote, so the model keeps the instant as a number.
   */
  datatype ImageRecord = ImageRecord(
    id: Id,
    url: string,
    publicId: string,
    title: string,
    caption: string,
    createdAt: nat)

  /** The ids of a sequence of records. */
  function IdsOf(s: seq<ImageRecord>): (ids: set<Id>)
    ensures forall i :: 0 <= i < |s| ==> s[i].id in ids
    ensures forall id :: id in ids ==> exists i :: 0 <= i < |s| && s[i].id == id
  {
    set i | 0 <= i < |s| :: s[i].id
  }

  /** The argument of `onNavigate`. */
  datatype Direction = Prev | Next

  /** No two records of `s` share an `_id`. */
  predicate UniqueIds(s: seq<ImageRecord>)
  {
    forall i, j :: 0 <= i < j < |s| ==> s[i].id != s[j].id
  }

  /** The decimal rendering of a natural number, as JavaScript's template strings print it. */
  function NatToString(n: nat): (s: string)
    ensures |s| >= 1
    ensures forall k :: 0 <= k < |s| ==> '0' <= s[k] <= '9'
    ensures |s| > 1 ==> s[0] != '0'
  {
    if n < 10 then [Digit(n)] else NatToString(n / 10) + [Digit(n % 10)]
  }

  function Digit(d: nat): (c: char)
    requires d < 10
    ensures '0' <= c <= '9'
  {
    ['0', '1', '2', '3', '4', '5', '6', '7', '8', '9'][d]
  }
}
