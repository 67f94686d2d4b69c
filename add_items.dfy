/** The add-item form: its state, the handlers that replace that state, the
    cover-URL check, and the request body a submission sends. */
module AddItems {
  import opened Wrappers
  import opened Json
  import opened Strings
  import opened Sequences

  /** `formData`. */
  datatype FormData = FormData(
    name: string,
    itemType: string,
    description: string,
    coverImage: string,
    additionalImages: seq<string>)

  const EmptyForm := FormData("", "", "", "", [])

  /** The cover sent when the form has none. */
  const CoverPlaceholder := "/placeholder.svg?height=300&width=300"

  /** `isValidImageUrl`: a non-empty URL that starts with "http" or "/". */
  predicate IsValidImageUrl(url: string)
  {
    url != "" && (StartsWith(url, "http") || StartsWith(url, "/"))
  }

  lemma IsValidImageUrlSpec(url: string)
    ensures IsValidImageUrl(url) <==>
              (|url| >= 4 && url[..4] == "http") || (|url| >= 1 && url[0] == '/')
  {
    StartsWithIsPrefix(url, "http");
    StartsWithIsPrefix(url, "/");
  }

  /** The image URLs as JSON strings, in order. */
  function JsonStrings(urls: seq<string>): (r: seq<Json>)
    ensures |r| == |urls|
    ensures forall k :: 0 <= k < |urls| ==> r[k] == JString(urls[k])
    decreases |urls|
  {
    if urls == [] then [] else [JString(urls[0])] + JsonStrings(urls[1..])
  }

  /** The object `handleSubmit` serialises as the request body. */
  function SubmitBody(f: FormData): Json
  {
    JObject(map[
      "name" := JString(f.name),
      "type" := JString(f.itemType),
      "description" := JString(f.description),
      "cover_image" := JString(if f.coverImage != "" then f.coverImage else CoverPlaceholder),
      "additional_images" := if |f.additionalImages| > 0 then JArray(JsonStrings(f.additionalImages)) else JNull])
  }

  /** The body sends `name`, `type` and `description` verbatim; its cover is
      the form's cover or the placeholder, so never empty; its image list is
      `null` for an empty list and the list itself otherwise, so never `[]`. */
  lemma SubmitBodySpec(f: FormData)
    ensures var b := SubmitBody(f);
      && Field(b, "name") == Some(JString(f.name))
      && Field(b, "type") == Some(JString(f.itemType))
      && Field(b, "description") == Some(JString(f.description))
      && Field(b, "cover_image") == Some(JString(if f.coverImage != "" then f.coverImage else CoverPlaceholder))
      && Field(b, "cover_image").value.s != ""
      && (f.additionalImages == [] ==> Field(b, "additional_images") == Some(JNull))
      && (f.additionalImages != [] ==>
            && Field(b, "additional_images").value.JArray?
            && |Field(b, "additional_images").value.elems| == |f.additionalImages|
            && (forall k :: 0 <= k < |f.additionalImages| ==>
                  Field(b, "additional_images").value.elems[k] == JString(f.additionalImages[k])))
      && Field(b, "additional_images") != Some(JArray([]))
  {
  }

  /** Every queued image URL is trimmed and non-empty. */
  ghost predicate WellFormedImages(urls: seq<string>)
  {
    forall k :: 0 <= k < |urls| ==> urls[k] != "" && Trim(urls[k]) == urls[k]
  }

  lemma WellFormedAfterRemoval(urls: seq<string>, index: int)
    requires WellFormedImages(urls)
    ensures WellFormedImages(WithoutIndex(urls, index))
  {
    WithoutIndexSpec(urls, index);
    if 0 <= index < |urls| {
      var r := WithoutIndex(urls, index);
      forall k | 0 <= k < |r| ensures r[k] != "" && Trim(r[k]) == r[k] {
        if k < index { assert r[k] == urls[k]; } else { assert r[k] == urls[k + 1]; }
      }
    }
  }

  /** The page state: `formData`, the cover URL input and the draft of the
      next additional image URL. */
  class AddItemsPage {
    var formData: FormData
    var coverImageUrl: string
    var additionalImageUrl: string

    ghost predicate Valid()
      reads this
    {
      WellFormedImages(formData.additionalImages)
    }

    constructor ()
      ensures Valid()
      ensures formData == EmptyForm && coverImageUrl == "" && additionalImageUrl == ""
    {
      formData := EmptyForm;
      coverImageUrl := "";
      additionalImageUrl := "";
    }

    /** The name input's `onChange`. */
    method SetName(value: string)
      requires Valid()
      modifies this
      ensures Valid()
      ensures formData == old(formData).(name := value)
      ensures coverImageUrl == old(coverImageUrl) && additionalImageUrl == old(additionalImageUrl)
    {
      formData := formData.(name := value);
    }

    /** The type select's `onValueChange`. */
    method SetType(value: string)
      requires Valid()
      modifies this
      ensures Valid()
      ensures formData == old(formData).(itemType := value)
      ensures coverImageUrl == old(coverImageUrl) && additionalImageUrl == old(additionalImageUrl)
    {
      formData := formData.(itemType := value);
    }

    /** The description's `onChange`. */
    method SetDescription(value: string)
      requires Valid()
      modifies this
      ensures Valid()
      ensures formData == old(formData).(description := value)
      ensures coverImageUrl == old(coverImageUrl) && additionalImageUrl == old(additionalImageUrl)
    {
      formData := formData.(description := value);
    }

    /** The additional-image input's `onChange`. */
    method SetAdditionalImageUrl(value: string)
      requires Valid()
      modifies this
      ensures Valid()
      ensures additionalImageUrl == value
      ensures formData == old(formData) && coverImageUrl == old(coverImageUrl)
    {
      additionalImageUrl := value;
    }

    /** `handleCoverImageUrl`: the URL input and the form's cover both
        become `url`. */
    method HandleCoverImageUrl(url: string)
      requires Valid()
      modifies this
      ensures Valid()
      ensures coverImageUrl == url
      ensures formData == old(formData).(coverImage := url)
      ensures additionalImageUrl == old(additionalImageUrl)
    {
      coverImageUrl := url;
      formData := formData.(coverImage := url);
    }

    /** `addAdditionalImage`: a draft that is not blank is trimmed, appended
        and cleared; a blank draft changes nothing. */
    method AddAdditionalImage() returns (added: bool)
      requires Valid()
      modifies this
      ensures Valid()
      ensures added <==> !AllWhitespace(old(additionalImageUrl))
      ensures formData == if added
                          then old(formData).(additionalImages := old(formData.additionalImages) + [Trim(old(additionalImageUrl))])
                          else old(formData)
      ensures additionalImageUrl == if added then "" else old(additionalImageUrl)
      ensures coverImageUrl == old(coverImageUrl)
    {
      var url := Trim(additionalImageUrl);
      TrimEmpty(additionalImageUrl);
      added := url != "";
      if added {
        TrimIdempotent(additionalImageUrl);
        formData := formData.(additionalImages := formData.additionalImages + [url]);
        additionalImageUrl := "";
      }
    }

    /** `removeAdditionalImage(index)`: the list without the entry at
        `index`. */
    method RemoveAdditionalImage(index: int)
      requires Valid()
      modifies this
      ensures Valid()
      ensures formData == old(formData).(additionalImages := WithoutIndex(old(formData.additionalImages), index))
      ensures coverImageUrl == old(coverImageUrl) && additionalImageUrl == old(additionalImageUrl)
    {
      WellFormedAfterRemoval(formData.additionalImages, index);
      formData := formData.(additionalImages := WithoutIndex(formData.additionalImages, index));
    }

    /** `handleSubmit`, given whether the server answered with an OK status
        (`false` also stands for a failed `fetch`). It returns the body it
        sent; after an OK answer the form is cleared, otherwise nothing
        changes. */
    method HandleSubmit(responseOk: bool) returns (body: Json)
      requires Valid()
      modifies this
      ensures Valid()
      ensures body == SubmitBody(old(formData))
      ensures WellFormedImages(old(formData).additionalImages)
      ensures responseOk ==> formData == EmptyForm && coverImageUrl == "" && additionalImageUrl == ""
      ensures !responseOk ==> formData == old(formData) && coverImageUrl == old(coverImageUrl)
                              && additionalImageUrl == old(additionalImageUrl)
    {
      body := SubmitBody(formData);
      if responseOk {
        formData := EmptyForm;
        coverImageUrl := "";
        additionalImageUrl := "";
      }
    }
  }
}
