/** Instagram: the mapping of the items of an sssinstagram reply to media
    records. */
module Instagram {
  import opened Common

  /** The record of one medium: the post, the preview, the media file and
      its kind ("video" or "image"). */
  datatype InstaMedia = InstaMedia(source: string, prev: string, link: string, kind: string)

  datatype Video = Video(videoUrl: string, displayUrl: string)

  datatype Photo = Photo(url: string)

  datatype Image = Image(photos: seq<Photo>, displayUrl: string)

  /** One item: its "video" and "image" keys, each of which may be absent. */
  datatype Item = Item(video: Option<Video>, image: Option<Image>)

  /** The `data` object of the reply. When it is not a sidecar, the object
      itself is the single item; `item` holds its "video" and "image" keys. */
  datatype InstaData = InstaData(status: int, kind: string, items: seq<Item>, item: Item)

  const Sidecar := "GraphSidecar"

  /** The items the loop runs over. */
  function Items(data: InstaData): (items: seq<Item>)
    ensures data.kind == Sidecar ==> items == data.items
    ensures data.kind != Sidecar ==> items == [data.item]
  {
    if data.kind == Sidecar then data.items else [data.item]
  }

  /** The body of one iteration: the kind, the media link and the preview. */
  function ItemFields(item: Item): (r: Outcome<(string, string, string)>)
    ensures item.video.Some? ==> r == Returned(("video", item.video.value.videoUrl, item.video.value.displayUrl))
    ensures item.video.None? && item.image.None? ==> r == Raised(KeyError)
    ensures item.video.None? && item.image.Some? && |item.image.value.photos| < 3 ==> r == Raised(IndexError)
    ensures item.video.None? && item.image.Some? && |item.image.value.photos| >= 3 ==>
              r == Returned(("image", item.image.value.photos[2].url, item.image.value.displayUrl))
  {
    if item.video.Some? then Returned(("video", item.video.value.videoUrl, item.video.value.displayUrl))
    else if item.image.None? then Raised(KeyError)
    else if |item.image.value.photos| < 3 then Raised(IndexError)
    else Returned(("image", item.image.value.photos[2].url, item.image.value.displayUrl))
  }

  /** The loop with the four-field record: one record per item, in order;
      the first item that fails stops the loop with its exception. */
  function MediaList(source: string, items: seq<Item>): Outcome<seq<InstaMedia>>
    decreases |items|
  {
    if items == [] then Returned([])
    else
      match MediaList(source, items[..|items| - 1])
      case Raised(e) => Raised(e)
      case Returned(front) =>
        match ItemFields(items[|items| - 1])
        case Raised(e) => Raised(e)
        case Returned(f) => Returned(front + [InstaMedia(source, f.2, f.1, f.0)])
  }

  /** `MediaList` once it has failed on a prefix stays failed. */
  lemma {:induction false} MediaListStops(source: string, items: seq<Item>, n: nat)
    requires n <= |items| && MediaList(source, items[..n]).Raised?
    ensures MediaList(source, items) == MediaList(source, items[..n])
    decreases |items| - n
  {
    if n < |items| {
      assert items[..n + 1][..n] == items[..n];
      MediaListStops(source, items, n + 1);
    } else {
      assert items[..n] == items;
    }
  }

  /** One record per item, in item order: the loop succeeds exactly when every
      item has its fields, and then record `i` carries item `i`'s kind, link
      and preview and the post link. */
  lemma {:induction false} MediaListSpec(source: string, items: seq<Item>)
    ensures MediaList(source, items).Returned? <==> forall i :: 0 <= i < |items| ==> ItemFields(items[i]).Returned?
    ensures MediaList(source, items).Returned? ==>
              var r := MediaList(source, items).value;
              && |r| == |items|
              && forall i :: 0 <= i < |items| ==>
                   var f := ItemFields(items[i]).value;
                   r[i] == InstaMedia(source, f.2, f.1, f.0)
    decreases |items|
  {
    if items != [] {
      var front := items[..|items| - 1];
      MediaListSpec(source, front);
      assert forall i :: 0 <= i < |front| ==> front[i] == items[i];
    }
  }

  /** The videos among the records are exactly the items with a "video" key. */
  lemma MediaKinds(source: string, items: seq<Item>)
    requires MediaList(source, items).Returned?
    ensures var r := MediaList(source, items).value;
            && |r| == |items|
            && forall i :: 0 <= i < |items| ==>
                 && (r[i].kind == "video" <==> items[i].video.Some?)
                 && (items[i].video.Some? ==> r[i].link == items[i].video.value.videoUrl && r[i].prev == items[i].video.value.displayUrl)
                 && (items[i].video.None? ==>
                       && items[i].image.Some? && |items[i].image.value.photos| >= 3
                       && r[i].link == items[i].image.value.photos[2].url && r[i].prev == items[i].image.value.displayUrl)
  {
    MediaListSpec(source, items);
  }

  /** `get_instagram_links(link)` with the record built from all four fields:
      a timeout or a status other than 1 gives `None`, an undecodable body
      raises, and otherwise the items become records. */
  function InstagramLinks(response: Option<Response<InstaData>>, link: string): (r: Outcome<Option<seq<InstaMedia>>>)
    ensures response.None? ==> r == Returned(None)
    ensures response.Some? && response.value.json.None? ==> r == Raised(JSONDecodeError)
    ensures response.Some? && response.value.json.Some? && response.value.json.value.status != 1 ==> r == Returned(None)
    ensures response.Some? && response.value.json.Some? && response.value.json.value.status == 1 ==>
              var media := MediaList(link, Items(response.value.json.value));
              && (r.Returned? <==> media.Returned?)
              && (media.Returned? ==> r.value == Some(media.value))
              && (media.Raised? ==> r == Raised(media.exc))
  {
    if response.None? then Returned(None)
    else if response.value.json.None? then Raised(JSONDecodeError)
    else if response.value.json.value.status != 1 then Returned(None)
    else
      match MediaList(link, Items(response.value.json.value))
      case Raised(e) => Raised(e)
      case Returned(media) => Returned(Some(media))
  }

  /** A post that is not a sidecar gives exactly one record. */
  lemma SingleItem(response: Option<Response<InstaData>>, link: string)
    requires response.Some? && response.value.json.Some?
    requires response.value.json.value.status == 1 && response.value.json.value.kind != Sidecar
    requires ItemFields(response.value.json.value.item).Returned?
    ensures InstagramLinks(response, link).Returned?
    ensures var f := ItemFields(response.value.json.value.item).value;
            InstagramLinks(response, link).value == Some([InstaMedia(link, f.2, f.1, f.0)])
  {
    var data := response.value.json.value;
    var items := Items(data);
    assert items == [data.item] && items[..|items| - 1] == [];
    assert MediaList(link, items[..|items| - 1]) == Returned([]);
    var f := ItemFields(data.item).value;
    assert MediaList(link, items) == Returned([] + [InstaMedia(link, f.2, f.1, f.0)]);
    assert [] + [InstaMedia(link, f.2, f.1, f.0)] == [InstaMedia(link, f.2, f.1, f.0)];
  }

  /** The loop of `get_instagram_links`, appending to `results`. */
  method GetInstagramLinks(response: Option<Response<InstaData>>, link: string) returns (r: Outcome<Option<seq<InstaMedia>>>)
    ensures r == InstagramLinks(response, link)
  {
    if response.None? {
      return Returned(None);
    }
    if response.value.json.None? {
      return Raised(JSONDecodeError);
    }
    var data := response.value.json.value;
    if data.status != 1 {
      return Returned(None);
    }
    var items := Items(data);
    var results: seq<InstaMedia> := [];
    for i := 0 to |items|
      invariant MediaList(link, items[..i]) == Returned(results)
    {
      assert items[..i + 1][..i] == items[..i];
      var f := ItemFields(items[i]);
      if f.Raised? {
        MediaListStops(link, items, i + 1);
        return Raised(f.exc);
      }
      results := results + [InstaMedia(link, f.value.2, f.value.1, f.value.0)];
    }
    assert items[..|items|] == items;
    return Returned(Some(results));
  }

  // ---------------------------------------------------------------------------
  // As written: the record is built with three arguments

  /** The loop as written: the record type has four fields but is called
      with three, so the first item whose fields could be read raises
      `TypeError`; only an empty item list gets through. */
  function MediaListAsWritten(items: seq<Item>): (r: Outcome<seq<InstaMedia>>)
    ensures items == [] ==> r == Returned([])
  {
    if items == [] then Returned([])
    else
      match ItemFields(items[0])
      case Raised(e) => Raised(e)
      case Returned(_) => Raised(TypeError)
  }

  /** `get_instagram_links` as written. */
  function InstagramLinksAsWritten(response: Option<Response<InstaData>>): (r: Outcome<Option<seq<InstaMedia>>>)
    ensures response.None? ==> r == Returned(None)
    ensures response.Some? && response.value.json.None? ==> r == Raised(JSONDecodeError)
    ensures response.Some? && response.value.json.Some? && response.value.json.value.status != 1 ==> r == Returned(None)
  {
    if response.None? then Returned(None)
    else if response.value.json.None? then Raised(JSONDecodeError)
    else if response.value.json.value.status != 1 then Returned(None)
    else
      match MediaListAsWritten(Items(response.value.json.value))
      case Raised(e) => Raised(e)
      case Returned(media) => Returned(Some(media))
  }

  /** As written, no post with an item ever yields a record: where the
      four-field version returns one record per item, the code as written
      raises `TypeError`; an empty sidecar gives the empty list in both. */
  lemma ThreeArguments(response: Option<Response<InstaData>>, link: string)
    requires response.Some? && response.value.json.Some? && response.value.json.value.status == 1
    ensures Items(response.value.json.value) == [] ==>
              InstagramLinksAsWritten(response) == InstagramLinks(response, link) == Returned(Some([]))
    ensures Items(response.value.json.value) != [] ==>
              InstagramLinksAsWritten(response).Raised?
    ensures Items(response.value.json.value) != [] && InstagramLinks(response, link).Returned? ==>
              && InstagramLinksAsWritten(response) == Raised(TypeError)
              && |InstagramLinks(response, link).value.value| == |Items(response.value.json.value)|
  {
    var items := Items(response.value.json.value);
    MediaListSpec(link, items);
  }
}
