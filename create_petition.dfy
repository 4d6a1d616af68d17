/**
 * The petition creation form: the content-moderation gate and the default
 * author applied on submit, and the image checks applied when a file is chosen.
 */
module CreatePetitionForm {
  import opened Wrappers
  import opened Types
  import opened Strings
  import Constants

  /** Author used when the nickname field is left empty. */
  const DefaultAuthor: string := "匿名爆米花"

  const ModerationError: string := "提交失败：内容包含敏感词汇，请修改后重试。为了维护良好的社区环境，请礼貌发言。"
  const HeicError: string := "不支持 HEIC/HEIF 格式，请使用 JPG/PNG 格式的图片，或在手机相机设置中改为\"最兼容\"格式"
  const TooLargeError: string := "图片太大，请选择小于5MB的图片"
  const ImageLoadError: string := "图片格式不支持或已损坏，请选择 JPG/PNG 格式"
  const FileReadError: string := "文件读取失败，请重试"

  /** Largest accepted image, in bytes (5 MB). */
  const MaxImageBytes: nat := 5 * 1024 * 1024

  // ---------------------------------------------------------------------------
  // Moderation

  /** The text that is screened: title, description and author joined by spaces, lowercased. */
  function ContentToCheck(title: string, description: string, author: string): (r: string)
    ensures r == ToLower(title) + " " + ToLower(description) + " " + ToLower(author)
    ensures forall i :: 0 <= i < |r| ==> !('A' <= r[i] <= 'Z')
  {
    var r := ToLower(title + " " + description + " " + author);
    assert r == ToLower(title) + " " + ToLower(description) + " " + ToLower(author);
    r
  }

  /** `words[i]`, lowercased, is the first block-list entry found in `content`. */
  ghost predicate FirstFound(content: string, words: seq<string>, i: int)
  {
    && 0 <= i < |words| && Includes(content, ToLower(words[i]))
    && forall j :: 0 <= j < i ==> !Includes(content, ToLower(words[j]))
  }

  /** `words.find(word => content.includes(word.toLowerCase()))`. */
  function FindSensitiveWord(content: string, words: seq<string>): (r: Option<string>)
    ensures r.None? <==> forall i :: 0 <= i < |words| ==> !Includes(content, ToLower(words[i]))
    ensures r.Some? ==> exists i :: FirstFound(content, words, i) && words[i] == r.value
  {
    if words == [] then None
    else if Includes(content, ToLower(words[0])) then
      assert FirstFound(content, words, 0);
      Some(words[0])
    else
      var r := FindSensitiveWord(content, words[1..]);
      assert r.Some? ==> exists i :: FirstFound(content, words, i) && words[i] == r.value by {
        if r.Some? {
          var i :| FirstFound(content, words[1..], i) && words[1..][i] == r.value;
          assert FirstFound(content, words, i + 1);
        }
      }
      r
  }

  /** What a submit leads to: an inline error, or the draft handed to the application. */
  datatype SubmitResult = Rejected(message: string) | Accepted(draft: PetitionDraft)

  /**
   * `handleSubmit`'s decision. The found word is tested for truthiness, so an
   * empty block-list entry found first would let the text through.
   */
  function ReviewSubmission(title: string, description: string, author: string,
                            imagePreview: Option<string>, words: seq<string>): (r: SubmitResult)
    ensures r.Rejected? ==> r.message == ModerationError
    ensures r.Accepted? ==>
      r.draft.title == title && r.draft.description == description && r.draft.imageUrl == imagePreview
    ensures r.Accepted? ==> r.draft.author == if author == "" then DefaultAuthor else author
    ensures (forall i :: 0 <= i < |words| ==> words[i] != "") ==>
      (r.Rejected? <==> exists i :: 0 <= i < |words| && Includes(ContentToCheck(title, description, author), ToLower(words[i])))
  {
    var found := FindSensitiveWord(ContentToCheck(title, description, author), words);
    if found.Some? && found.value != "" then Rejected(ModerationError)
    else Accepted(PetitionDraft(title, description, imagePreview, if author == "" then DefaultAuthor else author))
  }

  /** The block-list screens only the fields as typed: the default author is filled in after the check. */
  lemma DefaultAuthorNotScreened(title: string, description: string, imagePreview: Option<string>)
    ensures var r := ReviewSubmission(title, description, "", imagePreview, Constants.SensitiveWords);
      r.Rejected? <==> exists i :: (0 <= i < |Constants.SensitiveWords| &&
        Includes(ToLower(title + " " + description + " "), ToLower(Constants.SensitiveWords[i])))
  {
    assert title + " " + description + " " + "" == title + " " + description + " ";
  }

  /**
   * With the shipped block-list, a submission is refused exactly when one of
   * its lowercased entries occurs in the lowercased text.
   */
  lemma ShippedListRejectsIff(title: string, description: string, author: string, imagePreview: Option<string>)
    ensures ReviewSubmission(title, description, author, imagePreview, Constants.SensitiveWords).Rejected? <==>
      exists i :: (0 <= i < |Constants.SensitiveWords| &&
        Includes(ContentToCheck(title, description, author), ToLower(Constants.SensitiveWords[i])))
  {
    Constants.SensitiveWordsShape();
  }

  /** Lowercasing leaves text without A-Z alone, so the Chinese block words are matched as typed. */
  lemma LowerKeepsNonLetters(s: string)
    requires forall i :: 0 <= i < |s| ==> !('A' <= s[i] <= 'Z')
    ensures ToLower(s) == s
  {
  }

  /** With the shipped block-list, a title containing "单飞" is refused whatever the other fields hold. */
  lemma RejectsBlockedTitle(rest: string, description: string, author: string, imagePreview: Option<string>)
    ensures ReviewSubmission("单飞" + rest, description, author, imagePreview, Constants.SensitiveWords).Rejected?
  {
    var content := ContentToCheck("单飞" + rest, description, author);
    assert content[0..2] == "单飞";
    assert OccursAt(content, ToLower(Constants.SensitiveWords[0]), 0);
  }

  /** With the shipped block-list, "巡演请愿" with an empty nickname goes through under the default author. */
  lemma AcceptsTourPetition()
    ensures ReviewSubmission("巡演请愿", "巡演", "", None, Constants.SensitiveWords) ==
      Accepted(PetitionDraft("巡演请愿", "巡演", None, DefaultAuthor))
  {
    var content := ContentToCheck("巡演请愿", "巡演", "");
    LowerKeepsNonLetters("巡演请愿 巡演 ");
    assert content == "巡演请愿 巡演 ";
    forall i | 0 <= i < |Constants.SensitiveWords|
      ensures !Includes(content, ToLower(Constants.SensitiveWords[i]))
    {
      var w := ToLower(Constants.SensitiveWords[i]);
      NotIncludedWithoutFirstChar(content, w);
    }
  }

  // ---------------------------------------------------------------------------
  // Image selection

  /** The chosen file as the browser describes it. */
  datatype FileInfo = FileInfo(name: string, mimeType: string, size: nat)

  /** HEIC/HEIF by MIME type or by (lowercased) file extension. */
  function IsHeic(f: FileInfo): (b: bool)
    ensures f.mimeType in {"image/heic", "image/heif"} ==> b
    ensures !b ==> !EndsWith(ToLower(f.name), ".heic") && !EndsWith(ToLower(f.name), ".heif")
    ensures b ==> f.mimeType in {"image/heic", "image/heif"}
                  || EndsWith(ToLower(f.name), ".heic") || EndsWith(ToLower(f.name), ".heif")
  {
    || f.mimeType == "image/heic" || f.mimeType == "image/heif"
    || EndsWith(ToLower(f.name), ".heic") || EndsWith(ToLower(f.name), ".heif")
  }

  /** The extension test ignores case: "photo.HEIC" is caught whatever its declared type. */
  lemma HeicExtensionAnyCase(stem: string, mimeType: string, size: nat)
    ensures IsHeic(FileInfo(stem + ".HEIC", mimeType, size))
    ensures IsHeic(FileInfo(stem + ".Heif", mimeType, size))
  {
    assert ToLower(stem + ".HEIC") == ToLower(stem) + ".heic";
    assert ToLower(stem + ".Heif") == ToLower(stem) + ".heif";
  }

  /** An ordinary JPEG named "photo.jpg" is no HEIC image, so within the size limit it is read. */
  lemma OrdinaryPhotoIsRead(size: nat)
    requires size <= MaxImageBytes
    ensures CheckImage(FileInfo("photo.jpg", "image/jpeg", size)) == Readable
  {
    assert ToLower("photo.jpg") == "photo.jpg";
    assert !EndsWith("photo.jpg", ".heic") by { assert "photo.jpg"[4..] != ".heic"; }
    assert !EndsWith("photo.jpg", ".heif") by { assert "photo.jpg"[4..] != ".heif"; }
  }

  /** The verdict on a chosen file: refused as HEIC, refused as too large, or read for preview. */
  datatype ImageVerdict = HeicRejected | TooLarge | Readable

  /** `handleImageChange`'s checks, in order: the HEIC test first, then the size limit. */
  function CheckImage(f: FileInfo): (v: ImageVerdict)
    ensures v == HeicRejected <==> IsHeic(f)
    ensures v == TooLarge <==> !IsHeic(f) && f.size > MaxImageBytes
    ensures v == Readable <==> !IsHeic(f) && f.size <= MaxImageBytes
  {
    if IsHeic(f) then HeicRejected
    else if f.size > MaxImageBytes then TooLarge
    else Readable
  }

  /** The three text inputs of the form. */
  datatype TextField = TitleField | DescriptionField | AuthorField

  /** The form's state. */
  class CreateForm {
    var title: string
    var description: string
    var author: string
    var imageFile: Option<FileInfo>
    var imagePreview: Option<string>
    var error: Option<string>

    constructor ()
      ensures title == "" && description == "" && author == ""
      ensures imageFile == None && imagePreview == None && error == None
    {
      title, description, author := "", "", "";
      imageFile, imagePreview, error := None, None, None;
    }

    /** A keystroke in one of the text inputs. */
    method Edit(field: TextField, value: string)
      modifies this`title, this`description, this`author
      ensures title == (if field == TitleField then value else old(title))
      ensures description == (if field == DescriptionField then value else old(description))
      ensures author == (if field == AuthorField then value else old(author))
    {
      match field
      case TitleField => title := value;
      case DescriptionField => description := value;
      case AuthorField => author := value;
    }

    /**
     * `handleImageChange` up to the point where the file is handed to the
     * reader; `reading` tells whether it was. No preview is produced here.
     */
    method HandleImageChange(selected: Option<FileInfo>) returns (reading: bool)
      modifies this`imageFile, this`error
      ensures imagePreview == old(imagePreview)
      ensures selected.None? ==> !reading && imageFile == old(imageFile) && error == old(error)
      ensures selected.Some? && CheckImage(selected.value) == HeicRejected ==>
        !reading && imageFile == None && error == Some(HeicError)
      ensures selected.Some? && CheckImage(selected.value) == TooLarge ==>
        !reading && imageFile == selected && error == Some(TooLargeError)
      ensures selected.Some? && CheckImage(selected.value) == Readable ==>
        reading && imageFile == selected && error == None
    {
      if selected.None? {
        return false;
      }
      var file := selected.value;
      imageFile := Some(file);
      error := None;
      if IsHeic(file) {
        error := Some(HeicError);
        imageFile := None;
        return false;
      }
      if file.size > MaxImageBytes {
        error := Some(TooLargeError);
        return false;
      }
      reading := true;
    }

    /** The image decoded: the (compressed, or on a missing canvas the raw) data URL becomes the preview. */
    method HandleImageLoaded(dataUrl: string)
      modifies this`imagePreview
      ensures imagePreview == Some(dataUrl)
    {
      imagePreview := Some(dataUrl);
    }

    /** The image failed to decode: error shown, file and preview cleared. */
    method HandleImageLoadError()
      modifies this`imageFile, this`imagePreview, this`error
      ensures error == Some(ImageLoadError) && imageFile == None && imagePreview == None
    {
      error := Some(ImageLoadError);
      imageFile := None;
      imagePreview := None;
    }

    /** The file reader failed: error shown, nothing else changes. */
    method HandleReadError()
      modifies this`error
      ensures error == Some(FileReadError)
    {
      error := Some(FileReadError);
    }

    /** The remove button on the preview. */
    method RemoveImage()
      modifies this`imageFile, this`imagePreview
      ensures imageFile == None && imagePreview == None
    {
      imageFile := None;
      imagePreview := None;
    }

    /**
     * `handleSubmit`: clear the error, screen the text, and either show the
     * moderation error or hand the draft to `onSubmit` (returned here).
     */
    method HandleSubmit() returns (submitted: Option<PetitionDraft>)
      modifies this`error
      ensures var r := ReviewSubmission(title, description, author, imagePreview, Constants.SensitiveWords);
        && (r.Rejected? ==> submitted == None && error == Some(ModerationError))
        && (r.Accepted? ==> submitted == Some(r.draft) && error == None)
    {
      error := None;
      var r := ReviewSubmission(title, description, author, imagePreview, Constants.SensitiveWords);
      if r.Rejected? {
        error := Some(r.message);
        submitted := None;
      } else {
        submitted := Some(r.draft);
      }
    }
  }
}
