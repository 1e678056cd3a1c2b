/**
 * The persisted profile record of the link-in-bio page and its built-in
 * default (src/frontend/src/features/profile/profileTypes.ts).
 */
module ProfileTypes {

  datatype Option<+T> = None | Some(value: T)

  /** One outbound link, shown in list order. */
  datatype ProfileLink = ProfileLink(linkLabel: string, url: string)

  /** The profile record. `email` is optional because a record read back from
      storage may lack the key altogether, which the loader tells apart from
      an empty string. */
  datatype ProfileData = ProfileData(
    displayName: string,
    bio: string,
    phone: string,
    email: Option<string>,
    links: seq<ProfileLink>)

  /** The URL of the default Snapchat link. It is spelled in pieces so that
      facts about its characters can be checked piece by piece; the pieces
      concatenate to exactly the literal of the source. */
  const DEFAULT_SNAPCHAT_URL: string :=
    "https://www.snapchat.com/add/" + "irfan_jujara1?share_" + "id=" + "C0cEQ9" + "X" + "kCtE&locale=en-US"

  /** `DEFAULT_PROFILE`: the record used when nothing usable is stored. */
  const DEFAULT_PROFILE: ProfileData := ProfileData(
    "Jujara Irfan shokat",
    "Creative professional & digital enthusiast. Let's connect!",
    "9687626609",
    Some("ae560919@gmail.com"),
    [ProfileLink("Snapchat", DEFAULT_SNAPCHAT_URL)])
}
