/** The block-list and the seed petitions the application starts from. */
module Constants {
  import opened Wrappers
  import opened Types
  import Strings

  /** The moderation block-list, in its declared order. */
  const SensitiveWords: seq<string> := ["单飞", "df", "解散", "DF", "sf"]

  /** The block-list as declared: the case-variant pair is two entries that coincide once lowercased. */
  lemma SensitiveWordsShape()
    ensures |SensitiveWords| == 5
    ensures forall w :: w in SensitiveWords ==> w != ""
    ensures SensitiveWords[1] != SensitiveWords[3]
    ensures Strings.ToLower(SensitiveWords[1]) == Strings.ToLower(SensitiveWords[3]) == "df"
  {
  }

  /** Author shown on every seed petition. */
  const SeedAuthor: string := "爆米花"

  /** One seed petition: the placeholder title and description, no image, no signatures. */
  function SeedPetition(id: string, createdAt: int): Petition
  {
    Petition(id, "心愿", "这里是心愿内容的占位描述。", None, [], createdAt, SeedAuthor)
  }

  /**
   * The six seed petitions, created at module load time `now`, each one
   * second older than the one before it.
   */
  function InitialPetitions(now: int): (ps: seq<Petition>)
    ensures |ps| == 6
    ensures forall i :: 0 <= i < 6 ==> ps[i].id == [Strings.DigitChar(i + 1)]
    ensures forall i :: 0 <= i < 6 ==> ps[i].signatures == [] && ps[i].imageUrl == None
    ensures forall i :: 0 <= i < 6 ==> ps[i].createdAt == now - 1000 * i
    ensures forall i, j :: 0 <= i < j < 6 ==> ps[i].id != ps[j].id
    ensures forall i, j :: 0 <= i < j < 6 ==> ps[i].createdAt > ps[j].createdAt
  {
    [ SeedPetition("1", now),
      SeedPetition("2", now - 1000),
      SeedPetition("3", now - 2000),
      SeedPetition("4", now - 3000),
      SeedPetition("5", now - 4000),
      SeedPetition("6", now - 5000) ]
  }
}
