/**
 * The petition detail page: the recent-signature list, the support count, the
 * author label, and the signing form that disappears once it has been used.
 */
module PetitionDetailView {
  import opened Types
  import PetitionList

  /** Shown as the author when the petition has none. */
  const AuthorFallback: string := "TNT 粉丝"

  /** How many signatures the recent list shows at most. */
  const RecentLimit: nat := 5

  function Min(a: nat, b: nat): nat
  {
    if a <= b then a else b
  }

  /** `s.reverse()` on a copy. */
  function Reversed<T>(s: seq<T>): (r: seq<T>)
    ensures |r| == |s|
    ensures forall i :: 0 <= i < |s| ==> r[i] == s[|s| - 1 - i]
  {
    if s == [] then [] else Reversed(s[1..]) + [s[0]]
  }

  /** `signatures.slice(-5).reverse()`: the last five signatures (or all, if fewer), newest first. */
  function RecentSignatures(sigs: seq<Signature>): (r: seq<Signature>)
    ensures |r| == Min(RecentLimit, |sigs|)
    ensures forall i :: 0 <= i < |r| ==> r[i] == sigs[|sigs| - 1 - i]
  {
    Reversed(sigs[|sigs| - Min(RecentLimit, |sigs|)..])
  }

  /** A signature just added heads the recent list, followed by the previous newest ones. */
  lemma NewestFirst(sigs: seq<Signature>, s: Signature)
    ensures RecentSignatures(sigs + [s])[0] == s
    ensures RecentSignatures(sigs + [s])[1..] == RecentSignatures(sigs)[..Min(RecentLimit - 1, |sigs|)]
  {
    var r := RecentSignatures(sigs + [s]);
    var q := RecentSignatures(sigs);
    assert forall i :: 1 <= i < |r| ==> r[i] == sigs[|sigs| - i];
  }

  /**
   * The number shown above the form: zero exactly when the empty-state line
   * shows, and the recent list holds that many entries up to five.
   */
  function DisplayedCount(p: Petition): (n: nat)
    ensures n == 0 <==> ShowsEmptyMessage(p)
    ensures |RecentSignatures(p.signatures)| == Min(RecentLimit, n)
  {
    SupportCount(p)
  }

  /**
   * Signing a petition and handing the page the updated record raises the
   * number shown by exactly one and puts the new signature at the head of the
   * recent list.
   */
  lemma CountRisesWhenSigned(ps: seq<Petition>, i: nat, sig: Signature)
    requires i < |ps|
    ensures var q := PetitionList.SignAll(ps, ps[i].id, sig)[i];
      && DisplayedCount(q) == DisplayedCount(ps[i]) + 1
      && RecentSignatures(q.signatures)[0] == sig
  {
    var q := PetitionList.SignAll(ps, ps[i].id, sig)[i];
    NewestFirst(ps[i].signatures, sig);
  }

  /** The empty-state line is shown when there are no signatures. */
  function ShowsEmptyMessage(p: Petition): (b: bool)
    ensures b <==> SupportCount(p) == 0
    ensures b <==> RecentSignatures(p.signatures) == []
  {
    |p.signatures| == 0
  }

  /** `petition.author || 'TNT 粉丝'`. */
  function AuthorLabel(author: string): (r: string)
    ensures r != ""
    ensures author != "" ==> r == author
    ensures author == "" ==> r == AuthorFallback
  {
    if author != "" then author else AuthorFallback
  }

  /** The three inputs of the signing form. */
  datatype SignerField = FirstNameField | LastNameField | EmailField

  /** One detail page instance. */
  class DetailView {
    var petition: Petition
    var formData: SignerData
    var hasSigned: bool

    constructor (p: Petition)
      ensures petition == p && formData == SignerData("", "", "") && !hasSigned
      ensures FormShown()
    {
      petition := p;
      formData := SignerData("", "", "");
      hasSigned := false;
    }

    /** The form is rendered only until this page has signed once. */
    predicate FormShown()
      reads this
    {
      !hasSigned
    }

    /** A keystroke in one of the form's inputs. */
    method Edit(field: SignerField, value: string)
      modifies this`formData
      ensures formData == match field
        case FirstNameField => old(formData).(firstName := value)
        case LastNameField => old(formData).(lastName := value)
        case EmailField => old(formData).(email := value)
    {
      match field
      case FirstNameField => formData := formData.(firstName := value);
      case LastNameField => formData := formData.(lastName := value);
      case EmailField => formData := formData.(email := value);
    }

    /**
     * `handleSubmit`, reachable only from the rendered form: one `onSign` call,
     * returned as its arguments, after which the form is gone.
     */
    method HandleSubmit() returns (petitionId: string, signer: SignerData)
      requires FormShown()
      modifies this`hasSigned
      ensures petitionId == petition.id && signer == formData
      ensures hasSigned && !FormShown()
    {
      petitionId, signer := petition.id, formData;
      hasSigned := true;
    }

    /** The parent re-renders with the updated petition; the page's own state is kept. */
    method Receive(p: Petition)
      modifies this`petition
      ensures petition == p
    {
      petition := p;
    }
  }
}
