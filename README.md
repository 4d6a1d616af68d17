# TNT petition wall, modelled in Dafny

The application is a fan-run petition ("wish") wall. Visitors create petitions, sign them, and browse them sorted by support or by age. The browser keeps the list in local storage, saving it on every change and retrying once, after clearing the key, when the quota is exceeded. The creation form screens its text against a block-list and checks a chosen image before reading it. The detail page shows the five newest signatures and a signing form that can be used once.

A separate workflow turns an image into a generated video. It starts a job at the provider, polls the job until it is done, and then plays the result through a same-origin proxy. The proxy appends the server's credential to the remote location before fetching it.

The model follows the source file by file:

- `Types` (`types.dfy`): the records of `types.ts` as datatypes.
- `Constants` (`constants.dfy`): the block-list and the six seed petitions.
- `PetitionList` (`petitions.dfy`): the list operations of `App.tsx` as functions on sequences.
- `LocalCache` (`local_cache.dfy`): `localStorage` as a class, plus the load and save effects as methods proved against spec functions.
- `AppState` (`app.dfy`): the component state of `App.tsx` as a class whose handler methods update its fields.
- `CreatePetitionForm` (`create_petition.dfy`): moderation and image checks as functions; the form state as a class.
- `PetitionDetailView` (`petition_detail.dfy`): the recent-signature list as functions; the page state as a class.
- `UriEncoding` (`uri_encoding.dfy`): `encodeURIComponent` (ECMA-262, section 19.2.6.4), UTF-8 (RFC 3629) and percent-decoding (RFC 3986, section 2.1).
- `VideoService` (`video_service.dfy`): `generateVeoVideo` as a method with a `while !done` loop, proved against the recursive `PollFrom`.
- `ProxyVideo` (`proxy_video.dfy`): the proxy handler as a function of the query, the credential and the fetch.
- `VideoPipeline` (`video_pipeline.dfy`): how the proxy reads the `uri` query parameter, and the workflow's output traced through the proxy.

`Wrappers` (Option, Result) and `Strings` (lowercasing, substring search, decimal text) are helpers.

Effects outside the program are parameters:
- clock readings are a `now` argument;
- the JSON codec is a `Codec` value holding two functions;
- the storage quota is the fields of a `LocalStorage` object;
- the provider's replies are a finite sequence;
- the proxy's outbound fetch is a function argument;
- the credential is an `Option<string>`.

## Model

| member | source | states |
|---|---|---|
| Types.SupportCount | types.ts:14 | the support count is zero exactly when a petition has no signatures |
| Constants.SensitiveWordsShape | constants.ts:4 | the block-list has five non-empty entries; "df" and "DF" are distinct entries that coincide after lowercasing |
| Constants.InitialPetitions | constants.ts:7-62 | six seeds with ids "1".."6", no image and no signatures; seed i is created 1000·i ms before load time; ids are pairwise distinct and creation times strictly decrease |
| PetitionList.NewPetition | App.tsx:78-83 | the new record's id reads back as the clock reading, createdAt is that reading, signatures are empty, and the draft's fields are kept |
| PetitionList.AddPetition | App.tsx:77-84 | the new petition heads the list and the old list follows unchanged; the new record has the draft's fields, no signatures, the clock's id and the clock's createdAt |
| PetitionList.SameInstantSameId | App.tsx:80 | two petitions created at the same clock reading get the same id, so ids are not unique |
| PetitionList.DistinctInstantsDistinctIds | App.tsx:80 | petitions created at different clock readings get different ids |
| PetitionList.NewSignature | App.tsx:89-93 | the signature's id reads back as the clock reading, its timestamp is that reading, and the signer's fields are kept |
| PetitionList.SignOne | App.tsx:95-99 | a petition with the id gets exactly the signature appended after its old ones, nothing else changes; any other petition is returned as it is |
| PetitionList.SignAll | App.tsx:95-100 | the length and order are kept; every petition with the id gets the signature appended and nothing else changed; all other petitions are untouched |
| PetitionList.SignPetition | App.tsx:88-101 | signing an id no petition carries leaves the list unchanged |
| PetitionList.TotalSignatures | App.tsx:32 | the total bounds every petition's support count |
| PetitionList.SignTotal | App.tsx:95-100 | signing raises the total by the number of petitions carrying the id |
| PetitionList.SignUniqueTotal | App.tsx:88-101 | with exactly one petition per id, signing raises the total by one |
| PetitionList.SignEachAppends | App.tsx:95-100 | N signings of an id append exactly those N signatures, in order, and touch nothing else |
| PetitionList.Insert | App.tsx:106 | one insertion step adds exactly one element (a multiset statement) |
| PetitionList.InsertDescending | App.tsx:106 | inserting into a descending list keeps it descending |
| PetitionList.InsertWithKey | App.tsx:106 | insertion places the new element before the others with its key and keeps their order |
| PetitionList.SortBy | App.tsx:104-109 | the result is a permutation, descending by the key, and stable: each key's petitions keep their relative order |
| PetitionList.GetSortedPetitions | App.tsx:103-110 | POPULAR sorts by support count and NEWEST by creation time, both descending; the result is a stable permutation of the list |
| PetitionList.DisplayedPetitions | App.tsx:114 | the view shows a prefix of the sorted list: all of it when showAll, otherwise the first four |
| PetitionList.ShowMoreButton | App.tsx:238 | the button condition holds exactly when the window over the list shows fewer petitions than the list has |
| PetitionList.MoreButtonIffHidden | App.tsx:238 | the "more" button is rendered exactly when some petition is not shown |
| PetitionList.FindPetition | App.tsx:129 | the result is absent exactly when no petition has the id; otherwise it is the first petition that has it |
| PetitionList.HasCarouselTimer | App.tsx:68 | with the three shipped hero images, the rotation timer is always installed |
| PetitionList.NextHeroIndex | App.tsx:71 | a tick moves to the next image, and from the last image back to the first; the index stays valid |
| PetitionList.HeroRotationCycles | App.tsx:71 | every tick moves to another image; three ticks return to the start after showing all three images |
| LocalCache.LocalStorage.Get | App.tsx:36 | a disabled storage throws; otherwise returns the stored text or nothing; the call is logged either way |
| LocalCache.LocalStorage.Set | App.tsx:49 | fails when storage is disabled, stores the value when it fits, and otherwise reports the quota error; a failed write leaves the entries as they were |
| LocalCache.LocalStorage.Remove | App.tsx:55 | the key is removed and nothing else changes |
| LocalCache.SaveEffect | App.tsx:47-63 | a save is not made exactly when storage is disabled; a save that succeeded, at first or on the retry, leaves the new text under the key; a save that gave up leaves no entry under the key; other keys never change |
| LocalCache.SavePetitions | App.tsx:47-64 | the outcome and the new entries equal SaveEffect; the calls made are one write, or write, remove and write again after a quota error |
| LocalCache.SaveEffectCases | App.tsx:47-64 | a save either stores the new text, leaves the entries alone (any error but the quota), or leaves the key removed (the retry failed); other keys are never touched |
| LocalCache.RetrySucceedsWhenValueFits | App.tsx:53-58 | when the new text fits on its own, the save succeeds, at first or on the retry |
| LocalCache.LoadedPetitions | App.tsx:35-44 | a missing, empty or unparsable saved text keeps the current list; otherwise the parsed list replaces it |
| LocalCache.LoadPetitions | App.tsx:35-44 | one read of the storage key; on a disabled storage the read throws out of the effect and the list stays as it was, otherwise the list becomes LoadedPetitions of the stored entry |
| LocalCache.SaveThenLoad | App.tsx:35-64 | after a save that stored the list, a load gives back the same list, for any codec that reads back what it writes |
| LocalCache.GiveUpThenLoad | App.tsx:53-62 | after a save whose retry failed, a load keeps the list the application already has |
| LocalCache.DisabledStorageChangesNothing | App.tsx:48-51 | on a disabled storage a save is not made and leaves every entry as it was |
| AppState.ScreenFor | App.tsx:116-145 | the create and about pages show exactly for their views; the detail page shows exactly when the selected id is non-empty and is in the list, and then shows the first petition with that id; the home page shows otherwise |
| AppState.App.constructor | App.tsx:21-29 | the home view, the seed list, no selection, four cards shown, POPULAR order and the first hero image |
| AppState.App.HandleCreatePetition | App.tsx:77-86 | the list becomes AddPetition of the old one and the view returns home; the total is unchanged |
| AppState.App.HandleSignPetition | App.tsx:88-101 | the list becomes SignPetition of the old one, and the total rises by the number of petitions with the id |
| AppState.App.OpenPetition | App.tsx:230-233 | clicking a card selects its id and switches to the detail view |
| AppState.App.Navigate | App.tsx:85 | the view becomes the requested one |
| AppState.App.ChooseSort | App.tsx:206-214 | the sort option becomes the chosen one |
| AppState.App.ShowAllPetitions | App.tsx:241 | showAll becomes true |
| AppState.App.AdvanceHero | App.tsx:71 | the index advances by one modulo three and stays a valid image index |
| AppState.App.Displayed | App.tsx:112-114 | at most four cards unless showAll; with showAll, exactly the list's petitions; never a petition not in the list |
| AppState.App.CurrentScreen | App.tsx:116-145 | a detail screen only shows a petition that is in the list |
| AppState.App.LoadOnMount | App.tsx:35-44 | the effect throws exactly when storage is disabled, and the list then stays as it was; otherwise the list becomes LoadedPetitions of what storage holds |
| AppState.App.Persist | App.tsx:47-64 | the storage ends as SaveEffect of the current list |
| CreatePetitionForm.ContentToCheck | components/CreatePetition.tsx:104 | the screened text is the three fields lowercased and joined by single spaces, and holds no A-Z |
| CreatePetitionForm.FindSensitiveWord | components/CreatePetition.tsx:105 | the result is absent exactly when no lowercased entry occurs in the text; otherwise it is the first entry that occurs |
| CreatePetitionForm.ReviewSubmission | components/CreatePetition.tsx:99-120 | a rejection carries the moderation message; an accepted draft keeps the title, description and preview, with the default author when the nickname is empty; with non-empty entries, a rejection happens exactly when some entry occurs in the lowercased "title description author" text |
| CreatePetitionForm.DefaultAuthorNotScreened | components/CreatePetition.tsx:104-116 | with an empty nickname, screening sees only the typed fields, not the default author |
| CreatePetitionForm.ShippedListRejectsIff | components/CreatePetition.tsx:104-110 | with the shipped block-list, a submission is refused exactly when some lowercased entry occurs in the lowercased "title description author" text |
| CreatePetitionForm.LowerKeepsNonLetters | components/CreatePetition.tsx:104 | lowercasing leaves text without A-Z unchanged |
| CreatePetitionForm.RejectsBlockedTitle | components/CreatePetition.tsx:104-110 | a title starting with "单飞" is refused, whatever the other fields hold |
| CreatePetitionForm.AcceptsTourPetition | components/CreatePetition.tsx:104-117 | a harmless text with an empty nickname is accepted under the default author |
| CreatePetitionForm.IsHeic | components/CreatePetition.tsx:28 | a file is HEIC exactly when its type is image/heic or image/heif or its lowercased name ends in ".heic" or ".heif" |
| CreatePetitionForm.HeicExtensionAnyCase | components/CreatePetition.tsx:28 | a name ending in ".HEIC" or ".Heif" is caught, whatever the declared type |
| CreatePetitionForm.OrdinaryPhotoIsRead | components/CreatePetition.tsx:28-38 | a "photo.jpg" of type image/jpeg within the 5 MB limit is read for preview |
| CreatePetitionForm.CheckImage | components/CreatePetition.tsx:28-38 | HEIC/HEIF (by type or by extension) is refused first; otherwise a file over 5 MB is refused; anything else is read |
| CreatePetitionForm.CreateForm.constructor | components/CreatePetition.tsx:12-17 | every field starts empty |
| CreatePetitionForm.CreateForm.Edit | components/CreatePetition.tsx:12-16 | the edited field takes the new text and the other two keep theirs |
| CreatePetitionForm.CreateForm.HandleImageChange | components/CreatePetition.tsx:19-97 | no file changes nothing; HEIC clears the file and shows its error; an oversized file is kept and shows its error; otherwise the error is cleared and reading starts; the preview never changes here |
| CreatePetitionForm.CreateForm.HandleImageLoaded | components/CreatePetition.tsx:47-78 | the decoded image becomes the preview |
| CreatePetitionForm.CreateForm.HandleImageLoadError | components/CreatePetition.tsx:80-85 | a decode failure shows its error and clears the file and the preview |
| CreatePetitionForm.CreateForm.HandleReadError | components/CreatePetition.tsx:90-93 | a read failure shows its error |
| CreatePetitionForm.CreateForm.RemoveImage | components/CreatePetition.tsx:187 | the file and the preview are cleared |
| CreatePetitionForm.CreateForm.HandleSubmit | components/CreatePetition.tsx:99-120 | a rejection shows the moderation error and submits nothing; otherwise the error is cleared and the reviewed draft is submitted |
| PetitionDetailView.Reversed | components/PetitionDetail.tsx:66 | the result is the same length with element i taken from position n-1-i |
| PetitionDetailView.RecentSignatures | components/PetitionDetail.tsx:66 | at most five signatures, the newest first: element i is the (i+1)-th from the end |
| PetitionDetailView.NewestFirst | components/PetitionDetail.tsx:66 | a new signature heads the list, followed by the previous newest ones |
| PetitionDetailView.DisplayedCount | components/PetitionDetail.tsx:88 | the number shown is zero exactly when the empty-state line shows, and the recent list holds that many signatures up to five |
| PetitionDetailView.CountRisesWhenSigned | components/PetitionDetail.tsx:88 | signing a petition and handing the page the updated record raises the number shown by exactly one, with the new signature first in the recent list |
| PetitionDetailView.ShowsEmptyMessage | components/PetitionDetail.tsx:76 | the empty-state line shows exactly when the support count is zero, which is exactly when the recent list is empty |
| PetitionDetailView.AuthorLabel | components/PetitionDetail.tsx:48 | a non-empty author is shown as it is; an empty one is shown as "TNT 粉丝" |
| PetitionDetailView.DetailView.constructor | components/PetitionDetail.tsx:12-13 | empty form, not signed, so the signing form is shown |
| PetitionDetailView.DetailView.Edit | components/PetitionDetail.tsx:110-133 | the edited input takes the new text and the other two keep theirs |
| PetitionDetailView.DetailView.HandleSubmit | components/PetitionDetail.tsx:15-19 | only a rendered form submits (the form is replaced once signed); it sends the petition's id and the form data, after which the form is gone |
| PetitionDetailView.DetailView.Receive | components/PetitionDetail.tsx:11 | the page shows the updated petition and keeps its own state |
| UriEncoding.EncodeURIComponent | services/geminiService.ts:70 | the output uses only unreserved characters, '%' and upper-case hex digits |
| UriEncoding.EncodedIsSingleQueryValue | services/geminiService.ts:70 | the encoded text holds none of & = ? # + or space, so it stays one query value |
| UriEncoding.Utf8RoundTrip | services/geminiService.ts:70 | UTF-8 decoding inverts UTF-8 encoding |
| UriEncoding.PercentRoundTrip | services/geminiService.ts:70 | percent-decoding the encoded text gives back its UTF-8 bytes |
| UriEncoding.EncodeDecodeRoundTrip | services/geminiService.ts:70 | decoding the query value gives back exactly the encoded text |
| UriEncoding.EncodeInjective | services/geminiService.ts:70 | distinct locations encode to distinct query values |
| VideoService.ImagePayload | services/geminiService.ts:15 | a payload exists exactly when the data URL holds a comma; it is comma-free and starts the text after the first comma |
| VideoService.ImagePayloadOfDataUrl | services/geminiService.ts:15 | a data URL whose type and payload hold no comma yields exactly its payload |
| VideoService.NoCommaNoPayload | services/geminiService.ts:15 | a text without a comma yields no payload (undefined) |
| VideoService.Split | services/geminiService.ts:15 | the pieces hold no separator and, joined with it, give back the input |
| VideoService.FirstVideoUri | services/geminiService.ts:62 | the location is the uri of the first generated video: found only when the response lists at least one video whose first entry has a video, and then equal to that video's uri |
| VideoService.ErrorMessage | services/geminiService.ts:34-56 | the server's error text when it is non-empty, the fallback otherwise |
| VideoService.ProxyPath | services/geminiService.ts:70 | the path starts with "/api/proxy-video?uri="; its query value decodes to the location; it holds no query delimiter |
| VideoService.AspectRatioText | services/geminiService.ts:7 | "16:9" is sent exactly for the landscape ratio and "9:16" exactly for the portrait one |
| VideoService.Retrieve | services/geminiService.ts:62-70 | the run is ready exactly when the first video has a non-empty location, and then the path is that location's proxy path; otherwise it fails with "No video URI returned from generation." |
| VideoService.PollFrom | services/geminiService.ts:43-59 | a poll is sent unless the operation is already done or the replies have run out; the first poll sends the operation held; never more polls than replies; a run still polling consumed every reply and holds an operation not done |
| VideoService.Workflow | services/geminiService.ts:34-59 | a refused start fails with no polls; otherwise the polls begin with the started operation, never more than there are replies |
| VideoService.GenerateVeoVideo | services/geminiService.ts:4-71 | the start request carries the payload, type, prompt and the ratio's text ("16:9" when none is given); the polls sent and the outcome are exactly those of Workflow |
| VideoService.StartFailureStops | services/geminiService.ts:34-37 | a refused start fails with the server's error or "Failed to start video generation", and polls nothing |
| VideoService.DoneAtStartNoPolls | services/geminiService.ts:43 | an operation already done at start is never polled |
| VideoService.PollsFollowReplies | services/geminiService.ts:43-59 | the first poll sends the started operation and each later one sends the previous reply; none of them is done; there are no more polls than replies |
| VideoService.StatusFailureStops | services/geminiService.ts:53-56 | the first failed status reply ends the run right after that poll, with its error or "Failed to check status" |
| VideoService.ReadyMeansDoneWithVideo | services/geminiService.ts:43-70 | a run that returns a path stopped on the operation it last held (the started one, or the reply to its last poll); that operation is done with a non-empty first-video location, and the path is that location's proxy path |
| VideoService.MissingUriFails | services/geminiService.ts:62-65 | a done operation without a location fails with "No video URI returned from generation." |
| VideoService.OnePollThenReady | services/geminiService.ts:39-70 | not done once and then done with a video gives exactly one poll and that video's proxy path |
| ProxyVideo.KeyText | api/proxy-video.ts:5-8 | a set key is rendered as it is and an unset one as "undefined" |
| ProxyVideo.Separator | api/proxy-video.ts:7 | '&' exactly when the location already has a '?', and '?' otherwise |
| ProxyVideo.UpstreamUrl | api/proxy-video.ts:5-8 | the fetched URL is the location, then the separator, then "key=" and the credential ("undefined" when unset); it always holds a '?' |
| ProxyVideo.OneQueryStart | api/proxy-video.ts:7-8 | for a key that holds no '?': a location without a query gets exactly one '?', and one with a query gets no extra '?' |
| ProxyVideo.ForwardedType | api/proxy-video.ts:14-17 | the content type is forwarded exactly when it is present and non-empty |
| ProxyVideo.Handle | api/proxy-video.ts:1-25 | a missing or empty uri gives 400 "Missing URI" and fetches nothing; otherwise the upstream URL is fetched; 200 with the upstream bytes exactly when the fetch is ok and its body reads; every other case is 500 "Error fetching video" |
| ProxyVideo.FetchesUpstream | api/proxy-video.ts:8-11 | a non-empty location is fetched at the location with the key appended |
| ProxyVideo.ContentTypeForwarding | api/proxy-video.ts:12-17 | a content type is set only after an ok fetch, and only when the upstream's is non-empty; it is the upstream's value |
| ProxyVideo.UpstreamFailureIs500 | api/proxy-video.ts:11-24 | a network failure or a non-ok status gives 500 with no content type |
| VideoPipeline.QueryUri | api/proxy-video.ts:2 | a path off the proxy route, or whose query up to any '#' has no parameter named uri, carries no location; otherwise the location is the percent-decoded value of the first uri parameter |
| VideoPipeline.ProxyPathQuery | api/proxy-video.ts:2 | the proxy reads back from every workflow path exactly the location the path was built from |
| VideoPipeline.OtherParameterFirst | api/proxy-video.ts:2 | a parameter ahead of uri does not hide it: the uri parameter's value is still read |
| VideoPipeline.AmpersandEndsValue | api/proxy-video.ts:2 | a raw '&' ends the uri value, and what follows is another parameter |
| VideoPipeline.ReadyPathReachesVideo | services/geminiService.ts:62-70 | when the workflow returns a path, the proxy reads from it the non-empty first-video location of the operation the run stopped on, and fetches exactly that location with the key appended |

## Left out

- Clock readings: `Date.now()` is read twice in each handler and six times in the seed list. The model reads one instant per handler and one for the seeds. Reads in the same millisecond agree, so the model covers that case only.
- Lowercasing: `toLowerCase` is modelled on A-Z only. The block-list's Chinese entries have no case, and other scripts' case mappings are not modelled.
- JSON: `JSON.stringify` and `JSON.parse` are a `Codec` parameter. The read-back lemma assumes the codec reads back what it writes, and does not prove it of JSON.
- Quota accounting: a write is assumed to be charged for the key's old value as well as the new one. The retry after removing the key can only succeed under that accounting; browsers differ in their actual accounting.
- LocalCache.LoadedPetitions: a stored text that parses to something other than a list (such as `null` or a number) is taken as a parse failure here, since `parse` yields a list or nothing. The source would install that value as the petition list, and the total computed from it would then throw.
- LocalCache.SaveEffectCases: states the three outcomes as implications. A write whose text equals the stored one can still be refused, so no converse holds.
- React scheduling: effect order on mount, the save effect's run on the initial render, and batching of state updates are not modelled. Each handler and effect is a method call that runs on its own.
- Console logging: every `console.log`, `console.warn` and `console.error` call is left out.
- Image compression: the canvas resize to 600 px and the JPEG re-encode are left out. The preview is any data URL handed to `HandleImageLoaded`.
- Form validation: the browser's `required` and `type="email"` checks on the inputs are left out. The model submits whatever the fields hold.
- Timers: the 5 s carousel interval and the 5 s poll delay are left out. Each tick or poll is one call or one reply.
- VideoService.GenerateVeoVideo: the loop has no bound in the source. The model stops with `StillPolling` when the given replies run out, so it proves partial correctness only.
- VideoService.GenerateVeoVideo: a failing FileReader (the promise rejects with a ProgressEvent) and a reply body that is not JSON are not modelled.
- UriEncoding.EncodeURIComponent: Dafny strings cannot hold lone surrogates, so the URIError that `encodeURIComponent` throws on them is not modelled.
- VideoPipeline.QueryUri: the query is split at '&' and at the first '#', and the first parameter named exactly uri is read. Several things are not modelled. Parameter names are not percent-decoded. A value repeated into an array is not modelled: the first one is taken. A malformed '%' sequence or invalid UTF-8 yields no location here, while Node's query parser keeps the text as typed or puts U+FFFD in its place.
- ProxyVideo.Handle: the status text in the thrown error, and the body bytes beyond their identity, are not modelled.
- Id uniqueness: petitions and signatures take their id from the clock. The model follows the code and does not assume ids are unique; SameInstantSameId shows they can collide.
- Other files: api/petitions.ts, api/sign.ts, api/veo/start.ts, api/veo/status.ts and services/petitionService.ts are not part of this model. The application shell never calls the remote store, and the provider endpoints are given as replies.
- Presentation: components/PetitionCard.tsx, components/About.tsx, the mobile menu and the page layout are not part of this model. components/VeoGenerator.tsx, which calls `generateVeoVideo`, is not part of this model either.
