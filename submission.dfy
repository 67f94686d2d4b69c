/** End to end: what the add-item form sends, as the `POST` handler sees
    it. The client, not the server, keeps empty image lists and empty
    covers away from the store. */
module Submission {
  import opened Wrappers
  import opened Json
  import opened Db
  import opened ItemsRoute
  import opened AddItems
  import ItemDetailModal
  import Sequences

  /** A form submission reaches the store exactly when the name and type
      are non-empty, and otherwise gets the 400 answer; what reaches the
      store has the form's name and type as strings, an empty description
      turned into `null`, a non-empty string cover, and an image list that
      is `null` exactly when the form had none and is never `[]`. */
  lemma FormSubmissionReachesStore(f: FormData, createItem: Draft -> CreateOutcome)
    ensures var x := Post(Parsed(SubmitBody(f)), createItem);
      && (x.stored.Some? <==> f.name != "" && f.itemType != "")
      && (x.stored.None? ==> x.response == Response(400, ErrorBody(NameTypeRequired)))
      && (x.stored.Some? ==>
            var d := x.stored.value;
            && d.name == JString(f.name)
            && d.itemType == JString(f.itemType)
            && d.description == (if f.description != "" then JString(f.description) else JNull)
            && d.coverImage.JString? && d.coverImage.s != ""
            && d.additionalImages != JArray([])
            && d.additionalImages == (if f.additionalImages == [] then JNull
                                      else JArray(JsonStrings(f.additionalImages))))
  {
    var b := SubmitBody(f);
    SubmitBodySpec(f);
    if f.name != "" && f.itemType != "" {
      PostForwardsFields(b, createItem);
    } else {
      PostRejectsMissingFields(b, createItem);
    }
  }

  /** The images a well-formed form queues, as `AddItemsPage.Valid` keeps
      them, all survive the detail view's falsy-entry filter: an item stored
      as the form sent it shows its cover first and then every queued image,
      in order and none dropped. */
  lemma StoredSubmissionShowsEveryImage(f: FormData, item: Item)
    requires WellFormedImages(f.additionalImages)
    requires item.coverImage == Some(if f.coverImage != "" then f.coverImage else CoverPlaceholder)
    requires item.additionalImages == if f.additionalImages == [] then None else Some(f.additionalImages)
    ensures ItemDetailModal.AllImages(item) == [item.coverImage.value] + f.additionalImages
    ensures |ItemDetailModal.AllImages(item)| == 1 + |f.additionalImages|
  {
    ItemDetailModal.AllImagesSpec(item);
    Sequences.FilterAll(f.additionalImages, ItemDetailModal.IsTruthy);
  }
}
