/**
 * The petition-list operations of the application shell: creating, signing,
 * counting, sorting and windowing the list, and the hero-carousel step.
 * Every operation builds a new list and leaves its argument as it was.
 */
module PetitionList {
  import opened Wrappers
  import opened Types
  import Strings

  /** A petition's id is the text of the clock reading at which it was made. */
  function IdAt(now: nat): string
  {
    Strings.DecimalString(now)
  }

  /** The record `handleCreatePetition` builds from the form's draft at time `now`. */
  function NewPetition(data: PetitionDraft, now: nat): (p: Petition)
    ensures Strings.ParseDecimal(p.id) == now && p.createdAt == now && p.signatures == []
    ensures p.title == data.title && p.description == data.description
    ensures p.imageUrl == data.imageUrl && p.author == data.author
  {
    Strings.DecimalStringRoundTrip(now);
    Petition(IdAt(now), data.title, data.description, data.imageUrl, [], now, data.author)
  }

  /** `[newPetition, ...petitions]`: the new petition goes in front of the old list. */
  function AddPetition(ps: seq<Petition>, data: PetitionDraft, now: nat): (r: seq<Petition>)
    ensures |r| == |ps| + 1
    ensures r[1..] == ps
    ensures r[0].signatures == [] && r[0].createdAt == now && r[0].id == IdAt(now)
    ensures r[0].title == data.title && r[0].description == data.description
    ensures r[0].imageUrl == data.imageUrl && r[0].author == data.author
  {
    [NewPetition(data, now)] + ps
  }

  /**
   * Ids are clock readings, so nothing makes them unique: two petitions
   * created at the same instant carry the same id.
   */
  lemma SameInstantSameId(ps: seq<Petition>, d1: PetitionDraft, d2: PetitionDraft, now: nat)
    ensures var r := AddPetition(AddPetition(ps, d1, now), d2, now);
      r[0].id == r[1].id
  {
  }

  /** Different instants give different ids. */
  lemma DistinctInstantsDistinctIds(d1: PetitionDraft, d2: PetitionDraft, t1: nat, t2: nat)
    requires t1 != t2
    ensures NewPetition(d1, t1).id != NewPetition(d2, t2).id
  {
    Strings.DecimalStringInjective(t1, t2);
  }

  /** The signature `handleSignPetition` builds from the form's data at time `now`. */
  function NewSignature(signer: SignerData, now: nat): (s: Signature)
    ensures Strings.ParseDecimal(s.id) == now && s.timestamp == now
    ensures s.firstName == signer.firstName && s.lastName == signer.lastName && s.email == signer.email
  {
    Strings.DecimalStringRoundTrip(now);
    Signature(IdAt(now), signer.firstName, signer.lastName, signer.email, now)
  }

  /** Appends `sig` to `p` when `p` carries `id`. */
  function SignOne(p: Petition, id: string, sig: Signature): (q: Petition)
    ensures q.id == p.id
    ensures p.id == id ==> |q.signatures| == |p.signatures| + 1 && q.signatures[..|p.signatures|] == p.signatures
    ensures p.id == id ==> q.signatures[|p.signatures|] == sig && q == p.(signatures := q.signatures)
    ensures p.id != id ==> q == p
  {
    if p.id == id then p.(signatures := p.signatures + [sig]) else p
  }

  /**
   * `petitions.map(...)`: every petition whose id is `id` gets `sig` at the end of
   * its signatures; every other petition is kept; length and order are kept.
   */
  function SignAll(ps: seq<Petition>, id: string, sig: Signature): (r: seq<Petition>)
    ensures |r| == |ps|
    ensures forall i :: 0 <= i < |ps| && ps[i].id == id ==>
      r[i].signatures == ps[i].signatures + [sig] && r[i] == ps[i].(signatures := r[i].signatures)
    ensures forall i :: 0 <= i < |ps| && ps[i].id != id ==> r[i] == ps[i]
  {
    if ps == [] then [] else [SignOne(ps[0], id, sig)] + SignAll(ps[1..], id, sig)
  }

  /** `handleSignPetition`'s new list. */
  function SignPetition(ps: seq<Petition>, id: string, signer: SignerData, now: nat): (r: seq<Petition>)
    ensures |r| == |ps|
    ensures (forall i :: 0 <= i < |ps| ==> ps[i].id != id) ==> r == ps
  {
    SignAll(ps, id, NewSignature(signer, now))
  }

  /** Number of petitions that carry `id`. */
  function CountId(ps: seq<Petition>, id: string): (n: nat)
    ensures n <= |ps|
  {
    if ps == [] then 0 else (if ps[0].id == id then 1 else 0) + CountId(ps[1..], id)
  }

  /** The hero banner's `totalSignatures`: the sum of the support counts. */
  function TotalSignatures(ps: seq<Petition>): (n: nat)
    ensures forall i :: 0 <= i < |ps| ==> |ps[i].signatures| <= n
  {
    if ps == [] then 0 else |ps[0].signatures| + TotalSignatures(ps[1..])
  }

  /** Signing adds one to the total for each petition that carries the id. */
  lemma {:induction false} SignTotal(ps: seq<Petition>, id: string, sig: Signature)
    ensures TotalSignatures(SignAll(ps, id, sig)) == TotalSignatures(ps) + CountId(ps, id)
  {
    if ps != [] {
      var r := SignAll(ps, id, sig);
      assert r[1..] == SignAll(ps[1..], id, sig);
      SignTotal(ps[1..], id, sig);
    }
  }

  /** When the id is present exactly once, signing raises the total by exactly one. */
  lemma SignUniqueTotal(ps: seq<Petition>, id: string, signer: SignerData, now: nat)
    requires CountId(ps, id) == 1
    ensures TotalSignatures(SignPetition(ps, id, signer, now)) == TotalSignatures(ps) + 1
  {
    SignTotal(ps, id, NewSignature(signer, now));
  }

  /** Signing the same id once per element of `sigs`, in order. */
  function SignEach(ps: seq<Petition>, id: string, sigs: seq<Signature>): seq<Petition>
    decreases |sigs|
  {
    if sigs == [] then ps else SignEach(SignAll(ps, id, sigs[0]), id, sigs[1..])
  }

  /**
   * N signings of one petition leave N more signatures on it, in the order they
   * were given, and touch no petition with another id.
   */
  lemma {:induction false} SignEachAppends(ps: seq<Petition>, id: string, sigs: seq<Signature>)
    ensures |SignEach(ps, id, sigs)| == |ps|
    ensures forall i :: 0 <= i < |ps| && ps[i].id == id ==>
      SignEach(ps, id, sigs)[i].signatures == ps[i].signatures + sigs
    ensures forall i :: 0 <= i < |ps| && ps[i].id != id ==> SignEach(ps, id, sigs)[i] == ps[i]
  {
    SignEachLength(ps, id, sigs);
    forall i | 0 <= i < |ps|
      ensures ps[i].id == id ==> SignEach(ps, id, sigs)[i].signatures == ps[i].signatures + sigs
      ensures ps[i].id != id ==> SignEach(ps, id, sigs)[i] == ps[i]
    {
      SignEachAt(ps, id, sigs, i);
    }
  }

  lemma {:induction false} SignEachLength(ps: seq<Petition>, id: string, sigs: seq<Signature>)
    ensures |SignEach(ps, id, sigs)| == |ps|
    decreases |sigs|
  {
    if sigs != [] {
      SignEachLength(SignAll(ps, id, sigs[0]), id, sigs[1..]);
    }
  }

  /** The N signings, seen at one position of the list. */
  lemma {:induction false} SignEachAt(ps: seq<Petition>, id: string, sigs: seq<Signature>, i: nat)
    requires i < |ps|
    ensures |SignEach(ps, id, sigs)| == |ps|
    ensures ps[i].id == id ==> SignEach(ps, id, sigs)[i].signatures == ps[i].signatures + sigs
    ensures ps[i].id != id ==> SignEach(ps, id, sigs)[i] == ps[i]
    decreases |sigs|
  {
    SignEachLength(ps, id, sigs);
    if sigs != [] {
      var ps' := SignAll(ps, id, sigs[0]);
      var rest := sigs[1..];
      SignEachAt(ps', id, rest, i);
      if ps[i].id == id {
        assert ps'[i].id == id;
        assert sigs == [sigs[0]] + rest;
        assert ps'[i].signatures + rest == ps[i].signatures + sigs;
      } else {
        assert ps'[i] == ps[i];
      }
    }
  }

  // ---------------------------------------------------------------------------
  // Sorting

  /** The two orders of the list view. */
  datatype SortOption = Popular | Newest

  /** The number compared by the sort: support count, or creation time. */
  function SortKey(opt: SortOption, p: Petition): int
  {
    match opt
    case Popular => SupportCount(p)
    case Newest => p.createdAt
  }

  /** `s` is in non-increasing order of the key. */
  ghost predicate Descending(opt: SortOption, s: seq<Petition>)
  {
    forall i, j :: 0 <= i < j < |s| ==> SortKey(opt, s[i]) >= SortKey(opt, s[j])
  }

  /** The petitions of `s` whose key is `k`, in the order of `s`. */
  function WithKey(opt: SortOption, s: seq<Petition>, k: int): seq<Petition>
  {
    if s == [] then []
    else (if SortKey(opt, s[0]) == k then [s[0]] else []) + WithKey(opt, s[1..], k)
  }

  /** The petitions with key `k` are the first one, when its key is `k`, and then those of the rest. */
  lemma WithKeyFirst(opt: SortOption, ps: seq<Petition>)
    requires ps != []
    ensures forall k :: WithKey(opt, ps, k) == (if SortKey(opt, ps[0]) == k then [ps[0]] else []) + WithKey(opt, ps[1..], k)
  {
  }

  /**
   * Puts `x` in front of the first element whose key is not larger than its own:
   * one step of a stable sort that has `x` earlier than every element of `s`.
   */
  function Insert(opt: SortOption, x: Petition, s: seq<Petition>): (r: seq<Petition>)
    ensures |r| == |s| + 1
    ensures multiset(r) == multiset(s) + multiset{x}
  {
    if s == [] || SortKey(opt, s[0]) <= SortKey(opt, x) then [x] + s
    else
      assert s == [s[0]] + s[1..];
      [s[0]] + Insert(opt, x, s[1..])
  }

  /** Inserting into a descending list keeps it descending. */
  lemma {:induction false} InsertDescending(opt: SortOption, x: Petition, s: seq<Petition>)
    requires Descending(opt, s)
    ensures Descending(opt, Insert(opt, x, s))
  {
    if s != [] && SortKey(opt, s[0]) > SortKey(opt, x) {
      var t := Insert(opt, x, s[1..]);
      assert Insert(opt, x, s) == [s[0]] + t;
      InsertDescending(opt, x, s[1..]);
      InsertBelowHead(opt, x, s);
      ConsDescending(opt, s[0], t);
    }
  }

  /** A head whose key is at least every key of a descending tail makes a descending list. */
  lemma ConsDescending(opt: SortOption, h: Petition, t: seq<Petition>)
    requires Descending(opt, t)
    requires forall k :: 0 <= k < |t| ==> SortKey(opt, t[k]) <= SortKey(opt, h)
    ensures Descending(opt, [h] + t)
  {
    var r := [h] + t;
    forall i, j | 0 <= i < j < |r| ensures SortKey(opt, r[i]) >= SortKey(opt, r[j]) {
      assert r[j] == t[j - 1];
      if i > 0 {
        assert r[i] == t[i - 1];
      }
    }
  }

  /** Inserting below the head of a descending list keeps every key at most the head's. */
  lemma InsertBelowHead(opt: SortOption, x: Petition, s: seq<Petition>)
    requires Descending(opt, s) && s != [] && SortKey(opt, s[0]) > SortKey(opt, x)
    ensures forall k :: 0 <= k < |Insert(opt, x, s[1..])| ==> SortKey(opt, Insert(opt, x, s[1..])[k]) <= SortKey(opt, s[0])
  {
    var t := Insert(opt, x, s[1..]);
    forall k | 0 <= k < |t| ensures SortKey(opt, t[k]) <= SortKey(opt, s[0]) {
      var y := t[k];
      assert y in multiset(t);
      assert y == x || y in multiset(s[1..]);
      if y != x {
        var m :| 0 <= m < |s[1..]| && s[1..][m] == y;
        assert s[m + 1] == y;
      }
    }
  }

  /** Inserting `x` only adds `x`, at the front of the petitions that share its key. */
  lemma {:induction false} InsertWithKey(opt: SortOption, x: Petition, s: seq<Petition>)
    ensures forall k :: (WithKey(opt, Insert(opt, x, s), k) ==
      (if SortKey(opt, x) == k then [x] else []) + WithKey(opt, s, k))
  {
    var r := Insert(opt, x, s);
    if s == [] || SortKey(opt, s[0]) <= SortKey(opt, x) {
      assert r[1..] == s;
    } else {
      var t := Insert(opt, x, s[1..]);
      assert r[1..] == t;
      InsertWithKey(opt, x, s[1..]);
    }
  }

  /** Stable insertion sort, descending by the key. */
  function SortBy(opt: SortOption, ps: seq<Petition>): (r: seq<Petition>)
    ensures |r| == |ps|
    ensures multiset(r) == multiset(ps)
    ensures Descending(opt, r)
    ensures forall k :: WithKey(opt, r, k) == WithKey(opt, ps, k)
  {
    if ps == [] then []
    else
      var t := SortBy(opt, ps[1..]);
      SortStep(opt, ps, t);
      Insert(opt, ps[0], t)
  }

  /** Inserting the first petition into the sorted rest sorts the whole list. */
  lemma SortStep(opt: SortOption, ps: seq<Petition>, t: seq<Petition>)
    requires ps != []
    requires multiset(t) == multiset(ps[1..]) && Descending(opt, t)
    requires forall k :: WithKey(opt, t, k) == WithKey(opt, ps[1..], k)
    ensures multiset(Insert(opt, ps[0], t)) == multiset(ps)
    ensures Descending(opt, Insert(opt, ps[0], t))
    ensures forall k :: WithKey(opt, Insert(opt, ps[0], t), k) == WithKey(opt, ps, k)
  {
    var r := Insert(opt, ps[0], t);
    InsertDescending(opt, ps[0], t);
    assert multiset(r) == multiset(ps) by {
      assert ps == [ps[0]] + ps[1..];
      assert multiset(ps) == multiset(ps[1..]) + multiset{ps[0]};
    }
    InsertWithKey(opt, ps[0], t);
    WithKeyFirst(opt, ps);
    forall k ensures WithKey(opt, r, k) == WithKey(opt, ps, k) {
      assert WithKey(opt, r, k) == (if SortKey(opt, ps[0]) == k then [ps[0]] else []) + WithKey(opt, t, k);
    }
  }

  /**
   * `getSortedPetitions`: a sorted copy of the list, most signatures first
   * (POPULAR) or newest first (NEWEST); petitions with equal keys keep their
   * relative order, as Array.prototype.sort is stable.
   */
  function GetSortedPetitions(ps: seq<Petition>, opt: SortOption): (r: seq<Petition>)
    ensures multiset(r) == multiset(ps)
    ensures opt == Popular ==> forall i, j :: 0 <= i < j < |r| ==> |r[i].signatures| >= |r[j].signatures|
    ensures opt == Newest ==> forall i, j :: 0 <= i < j < |r| ==> r[i].createdAt >= r[j].createdAt
    ensures forall k :: WithKey(opt, r, k) == WithKey(opt, ps, k)
  {
    var r := SortBy(opt, ps);
    assert Descending(opt, r);
    r
  }

  // ---------------------------------------------------------------------------
  // The list window and the "more" button

  /** Number of petitions shown before "more" is pressed. */
  const PageSize: nat := 4

  /** `showAll ? sorted : sorted.slice(0, 4)`. */
  function DisplayedPetitions(sorted: seq<Petition>, showAll: bool): (r: seq<Petition>)
    ensures r <= sorted
    ensures |r| == if showAll || |sorted| <= PageSize then |sorted| else PageSize
  {
    if showAll || |sorted| <= PageSize then sorted else sorted[..PageSize]
  }

  /** The "more" button is rendered when `!showAll && petitions.length > 4`. */
  function ShowMoreButton(showAll: bool, ps: seq<Petition>): (b: bool)
    ensures b <==> |DisplayedPetitions(ps, showAll)| < |ps|
  {
    !showAll && |ps| > PageSize
  }

  /** The "more" button appears exactly when some petition is not on screen. */
  lemma MoreButtonIffHidden(ps: seq<Petition>, opt: SortOption, showAll: bool)
    ensures ShowMoreButton(showAll, ps) <==>
      |DisplayedPetitions(GetSortedPetitions(ps, opt), showAll)| < |ps|
  {
    var sorted := GetSortedPetitions(ps, opt);
    assert |sorted| == |multiset(sorted)| == |multiset(ps)| == |ps|;
  }

  // ---------------------------------------------------------------------------
  // Lookup for the detail screen

  /** Position `i` holds the first petition of `ps` that carries `id`. */
  ghost predicate FirstMatch(ps: seq<Petition>, id: string, i: int)
  {
    0 <= i < |ps| && ps[i].id == id && forall j :: 0 <= j < i ==> ps[j].id != id
  }

  /** `petitions.find(p => p.id === id)`: the first petition carrying `id`. */
  function FindPetition(ps: seq<Petition>, id: string): (r: Option<Petition>)
    ensures r.None? <==> forall i :: 0 <= i < |ps| ==> ps[i].id != id
    ensures r.Some? ==> exists i :: FirstMatch(ps, id, i) && ps[i] == r.value
  {
    if ps == [] then None
    else if ps[0].id == id then
      assert FirstMatch(ps, id, 0);
      Some(ps[0])
    else
      var r := FindPetition(ps[1..], id);
      assert r.Some? ==> exists i :: FirstMatch(ps, id, i) && ps[i] == r.value by {
        if r.Some? {
          var i :| FirstMatch(ps[1..], id, i) && ps[1..][i] == r.value;
          assert FirstMatch(ps, id, i + 1);
        }
      }
      r
  }

  // ---------------------------------------------------------------------------
  // Hero carousel

  /** The three banner images. */
  const HeroImages: seq<string> := [
    "https://i.postimg.cc/CKzTS39H/tnt1.jpg",
    "https://i.postimg.cc/QMwLt6rm/tnt2.jpg",
    "https://i.postimg.cc/0NbRPThX/tnt3.jpg"]

  /**
   * The rotation timer is installed only when there is more than one image;
   * with the three shipped images it always is.
   */
  function HasCarouselTimer(): (b: bool)
    ensures b
  {
    !(|HeroImages| <= 1)
  }

  /** One timer tick: `(prevIndex + 1) % HERO_IMAGES.length`. */
  function NextHeroIndex(i: nat): (j: nat)
    ensures j < |HeroImages|
    ensures i + 1 < |HeroImages| ==> j == i + 1
    ensures i + 1 == |HeroImages| ==> j == 0
  {
    (i + 1) % |HeroImages|
  }

  /** From any valid index, the carousel moves on each tick and shows every image within three ticks. */
  lemma HeroRotationCycles(i: nat)
    requires i < |HeroImages|
    ensures NextHeroIndex(i) != i
    ensures NextHeroIndex(NextHeroIndex(NextHeroIndex(i))) == i
    ensures {i, NextHeroIndex(i), NextHeroIndex(NextHeroIndex(i))} == {0, 1, 2}
  {
  }
}
