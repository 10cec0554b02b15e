/**
 * Records the app decodes from its REST endpoints. Only the fields that the
 * modelled logic reads are kept; every server field is optional, as in the
 * source's `Codable` structs.
 */
module Models {
  import opened Wrappers

  /** An error reported to a completion handler: a code and a message. */
  datatype APIError = APIError(code: int, message: string)

  /** One ephemeral photo post; `liked` is a client-side overlay. */
  datatype Story = Story(id: string, userId: string, imagePath: string, liked: bool)

  /** One uploaded profile photo; `photo` is its URL. */
  datatype Photo = Photo(photo: string)

  /** The signed-in (or browsed) user as the server returns it. */
  datatype User = User(
    id: Option<string>,
    name: Option<string>,
    address: Option<string>,
    bio: Option<string>,
    looking: Option<string>,
    hereFor: Option<string>,
    gender: Option<string>,
    photos: Option<seq<Photo>>)

  /** One entry of the matches / likes / visitors lists. */
  datatype Match = Match(
    id: Option<string>,
    name: Option<string>,
    age: Option<string>,
    photo: Option<string>,
    liked: Option<bool>)
}
