/** The domain records shared by every part of the application. */
module Types {
  import opened Wrappers

  /** One fan's endorsement of a petition; `timestamp` is milliseconds since the epoch. */
  datatype Signature = Signature(
    id: string,
    firstName: string,
    lastName: string,
    email: string,
    timestamp: int)

  /** A petition ("wish"); `signatures` is kept in the order they were given. */
  datatype Petition = Petition(
    id: string,
    title: string,
    description: string,
    imageUrl: Option<string>,
    signatures: seq<Signature>,
    createdAt: int,
    author: string)

  /** What the creation form hands to the application: a petition without id, signatures or creation time. */
  datatype PetitionDraft = PetitionDraft(
    title: string,
    description: string,
    imageUrl: Option<string>,
    author: string)

  /** What the signing form hands to the application: a signature without id or timestamp. */
  datatype SignerData = SignerData(firstName: string, lastName: string, email: string)

  /** The four screens of the application. */
  datatype ViewState = Home | Create | Detail | About

  /** The support count shown on a card and on the detail page. */
  function SupportCount(p: Petition): (n: nat)
    ensures n == 0 <==> p.signatures == []
  {
    |p.signatures|
  }
}
