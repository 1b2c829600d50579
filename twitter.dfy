/** Twitter: the media links of a tweet (full-size photo links built from the
    image urls, or the video variants of the tweetpik service) and the
    assembly of the record the bot posts (author link, description text with
    the t.co links expanded, media links). */
module Twitter {
  import opened Common
  import opened Links

  /** The full-size links and the thumbnail links of a tweet's media. */
  datatype MediaLinks = MediaLinks(links: seq<string>, thumbs: seq<string>)

  // ---------------------------------------------------------------------------
  // Photos

  /** The full-size link of one image url: the `file` pattern's groups fill
      the `full` template; no match raises AttributeError. */
  function FullLink(url: string): (r: Outcome<string>)
    ensures TwitterFileSearch(url).None? ==> r == Raised(AttributeError)
    ensures TwitterFileSearch(url).Some? ==> r == Expand(TwitterFullTemplate, TwitterFileSearch(url).value)
  {
    match TwitterFileSearch(url)
    case None => Raised(AttributeError)
    case Some(groups) => Expand(TwitterFullTemplate, groups)
  }

  /** The links collected by the loop over the image urls, as a fold from the
      left: the first url without a match stops the loop. */
  function PhotoLinks(urls: seq<string>): Outcome<seq<string>>
    decreases |urls|
  {
    if urls == [] then Returned([])
    else
      match PhotoLinks(urls[..|urls| - 1])
      case Raised(e) => Raised(e)
      case Returned(links) =>
        match FullLink(urls[|urls| - 1])
        case Raised(e) => Raised(e)
        case Returned(link) => Returned(links + [link])
  }

  /** The loop of `get_twitter_media` for photos. */
  method CollectPhotoLinks(urls: seq<string>) returns (r: Outcome<seq<string>>)
    ensures r == PhotoLinks(urls)
  {
    var links: seq<string> := [];
    var i := 0;
    while i < |urls|
      invariant 0 <= i <= |urls|
      invariant PhotoLinks(urls[..i]) == Returned(links)
    {
      assert urls[..i + 1][..i] == urls[..i];
      var link := FullLink(urls[i]);
      if link.Raised? {
        PhotoLinksStops(urls, i + 1);
        return Raised(link.exc);
      }
      links := links + [link.value];
      i := i + 1;
    }
    assert urls[..i] == urls;
    return Returned(links);
  }

  /** Once the loop has raised, the later urls change nothing. */
  lemma {:induction false} PhotoLinksStops(urls: seq<string>, k: nat)
    requires k <= |urls| && PhotoLinks(urls[..k]).Raised?
    ensures PhotoLinks(urls) == PhotoLinks(urls[..k])
    decreases |urls| - k
  {
    if k < |urls| {
      var front := urls[..|urls| - 1];
      assert front[..k] == urls[..k];
      PhotoLinksStops(front, k);
    } else {
      assert urls[..k] == urls;
    }
  }

  /** One full link per image url, in order, exactly when every url matches;
      otherwise the error of the first url that does not. */
  lemma {:induction false} PhotoLinksSpec(urls: seq<string>)
    ensures PhotoLinks(urls).Returned? <==> forall i :: 0 <= i < |urls| ==> FullLink(urls[i]).Returned?
    ensures PhotoLinks(urls).Returned? ==>
              |PhotoLinks(urls).value| == |urls|
              && forall i :: 0 <= i < |urls| ==> PhotoLinks(urls).value[i] == FullLink(urls[i]).value
    decreases |urls|
  {
    if urls != [] {
      var front := urls[..|urls| - 1];
      PhotoLinksSpec(front);
      assert forall i :: 0 <= i < |front| ==> front[i] == urls[i];
    }
  }

  /** `link.replace("orig", "large")` for every link. */
  function Thumbs(links: seq<string>): (r: seq<string>)
    ensures |r| == |links|
    ensures forall i :: 0 <= i < |links| ==> r[i] == Replace(links[i], "orig", "large")
  {
    if links == [] then [] else [Replace(links[0], "orig", "large")] + Thumbs(links[1..])
  }

  /** The photo branch: the full links and their thumbnails. */
  function PhotoMedia(urls: seq<string>): Outcome<MediaLinks> {
    match PhotoLinks(urls)
    case Raised(e) => Raised(e)
    case Returned(links) => Returned(MediaLinks(links, Thumbs(links)))
  }

  /** An image url `.../media/ID.EXT` becomes the original-size link of ID in format EXT. */
  lemma FullLinkDotForm(id: string, ext: string)
    requires id != [] && '.' !in id && '?' !in id
    requires ext != [] && AllWord(ext)
    ensures FullLink(TwimgMedia + id + "." + ext) == Returned(TwimgMedia + id + "?format=" + ext + "&name=orig")
  {
    TwitterFileDotForm(id, ext);
    TwitterFullFormat(id, ext);
  }

  // The thumbnail of a full link. Every piece below is separated from the
  // next by a character that is not in "orig", so no occurrence straddles two.

  const TwimgHost := "https://pbs.twimg.com/media"

  /** A string in which "ori" never occurs contains no "orig". */
  lemma NoOrig(s: string)
    requires forall i :: 0 <= i < |s| - 2 ==> !(s[i] == 'o' && s[i + 1] == 'r' && s[i + 2] == 'i')
    ensures Replace(s, "orig", "large") == s
  {
    forall i ensures !OccursAt(s, "orig", i) {
      if 0 <= i && i + 4 <= |s| {
        assert s[i..i + 4][0] == s[i] && s[i..i + 4][1] == s[i + 1] && s[i..i + 4][2] == s[i + 2];
      }
    }
    ReplaceAbsent(s, "orig", "large");
  }

  lemma HostHasNoOrig()
    ensures Replace(TwimgHost, "orig", "large") == TwimgHost
  {
    NoOrig(TwimgHost);
  }

  lemma FormatWordHasNoOrig()
    ensures Replace("format", "orig", "large") == "format"
  {
    NoOrig("format");
  }

  /** `name=orig` becomes `name=large`. */
  lemma NameOrig()
    ensures Replace("name=orig", "orig", "large") == "name=large"
  {
    ReplaceWithoutFirst("name", "orig", "large");
    ReplaceLeading("orig", [], "large");
    assert Replace([], "orig", "large") == [];
    assert "name=orig" == "name" + ['='] + "orig";
    ReplaceAcross("name", '=', "orig", "orig", "large");
    assert "name" + ['='] + ("large" + []) == "name=large";
  }

  /** Two parts joined by a character not in "orig" are replaced separately. */
  lemma JoinedOrig(x: string, c: char, y: string, x': string, y': string)
    requires c !in "orig"
    requires Replace(x, "orig", "large") == x' && Replace(y, "orig", "large") == y'
    ensures Replace(x + [c] + y, "orig", "large") == x' + [c] + y'
  {
    ReplaceAcross(x, c, y, "orig", "large");
  }

  /** `format=F` keeps a format without "orig". */
  lemma FormatParam(format: string)
    requires forall i :: !OccursAt(format, "orig", i)
    ensures Replace("format=" + format, "orig", "large") == "format=" + format
  {
    ReplaceAbsent(format, "orig", "large");
    FormatWordHasNoOrig();
    assert "format=" + format == "format" + ['='] + format;
    JoinedOrig("format", '=', format, "format", format);
  }

  /** The query part `format=F&name=orig` becomes `format=F&name=large`. */
  lemma QueryThumb(format: string)
    requires forall i :: !OccursAt(format, "orig", i)
    ensures Replace("format=" + format + "&name=orig", "orig", "large") == "format=" + format + "&name=large"
  {
    var f := "format=" + format;
    QueryParts(format);
    assert f + "&name=orig" == f + ['&'] + "name=orig";
    assert f + ['&'] + "name=large" == f + "&name=large";
  }

  lemma QueryParts(format: string)
    requires forall i :: !OccursAt(format, "orig", i)
    ensures var f := "format=" + format;
            Replace(f + ['&'] + "name=orig", "orig", "large") == f + ['&'] + "name=large"
  {
    var f := "format=" + format;
    FormatParam(format);
    NameOrig();
    JoinedOrig(f, '&', "name=orig", f, "name=large");
  }

  lemma TwimgMediaSplit()
    ensures TwimgMedia == TwimgHost + ['/']
  {
  }

  /** The path part `https://pbs.twimg.com/media/ID` is left alone. */
  lemma PathThumb(id: string)
    requires forall i :: !OccursAt(id, "orig", i)
    ensures Replace(TwimgMedia + id, "orig", "large") == TwimgMedia + id
  {
    ReplaceAbsent(id, "orig", "large");
    HostHasNoOrig();
    TwimgMediaSplit();
    JoinedOrig(TwimgHost, '/', id, TwimgHost, id);
  }

  /** The thumbnail of an original-size link is the same link with
      `name=large`, when neither the id nor the format contains "orig". */
  lemma ThumbOfFull(id: string, format: string)
    requires forall i :: !OccursAt(id, "orig", i)
    requires forall i :: !OccursAt(format, "orig", i)
    ensures Replace(TwimgMedia + id + "?format=" + format + "&name=orig", "orig", "large")
         == TwimgMedia + id + "?format=" + format + "&name=large"
  {
    var p := TwimgMedia + id;
    PathThumb(id);
    QueryThumb(format);
    var q := "format=" + format + "&name=orig";
    assert p + "?format=" + format + "&name=orig" == p + ['?'] + q;
    ReplaceAcross(p, '?', q, "orig", "large");
    assert p + ['?'] + ("format=" + format + "&name=large") == p + "?format=" + format + "&name=large";
  }

  // ---------------------------------------------------------------------------
  // Videos

  datatype Variant = Variant(url: string)

  /** The tweetpik reply: its `variants`. */
  datatype VideoReply = VideoReply(variants: seq<Variant>)

  /** The video branch: a status other than 200 gives `None`; otherwise the
      link is the last variant and the thumbnail the one before it, both
      indices taken modulo the number of variants. */
  function VideoMedia(res: Response<VideoReply>): (r: Outcome<Option<MediaLinks>>)
    ensures res.statusCode != 200 ==> r == Returned(None)
    ensures res.statusCode == 200 && res.json.None? ==> r == Raised(JSONDecodeError)
    ensures res.statusCode == 200 && res.json.Some? && res.json.value.variants == [] ==> r == Raised(ZeroDivisionError)
  {
    if res.statusCode != 200 then Returned(None)
    else if res.json.None? then Raised(JSONDecodeError)
    else
      var variants := res.json.value.variants;
      match PyMod(-1, |variants|)
      case Raised(e) => Raised(e)
      case Returned(last) =>
        match PyMod(-2, |variants|)
        case Raised(e) => Raised(e)
        case Returned(previous) =>
          Returned(Some(MediaLinks([variants[last].url], [variants[previous].url])))
  }

  /** With at least one variant: the last one is the link and the one before
      it the thumbnail; a single variant is both. */
  lemma VideoPick(res: Response<VideoReply>)
    requires res.statusCode == 200 && res.json.Some? && |res.json.value.variants| >= 1
    ensures var v := res.json.value.variants;
            VideoMedia(res) == Returned(Some(MediaLinks([v[|v| - 1].url], [v[if |v| == 1 then 0 else |v| - 2].url])))
  {
    var n := |res.json.value.variants|;
    assert -1 % n == n - 1 by {
      assert -1 == (-1) * n + (n - 1);
    }
    if n == 1 {
      assert -2 % n == 0;
    } else {
      assert -2 % n == n - 2 by {
        assert -2 == (-1) * n + (n - 2);
      }
    }
  }

  /** `get_twitter_media(tweet_id, media_type, image_list)`: photos are built
      from the image urls, anything else asks tweetpik for the video. */
  function TwitterMedia(mediaType: string, imageUrls: seq<string>, video: Response<VideoReply>)
    : (r: Outcome<Option<MediaLinks>>)
    ensures mediaType == "photo" ==>
              r == (match PhotoLinks(imageUrls)
                    case Raised(e) => Raised(e)
                    case Returned(ls) => Returned(Some(MediaLinks(ls, Thumbs(ls)))))
    ensures mediaType != "photo" ==> r == VideoMedia(video)
  {
    if mediaType == "photo" then
      match PhotoMedia(imageUrls)
      case Raised(e) => Raised(e)
      case Returned(m) => Returned(Some(m))
    else VideoMedia(video)
  }

  /** The method form of `get_twitter_media`, running the photo loop. */
  method GetTwitterMedia(mediaType: string, imageUrls: seq<string>, video: Response<VideoReply>)
    returns (r: Outcome<Option<MediaLinks>>)
    ensures r == TwitterMedia(mediaType, imageUrls, video)
  {
    if mediaType == "photo" {
      var links := CollectPhotoLinks(imageUrls);
      if links.Raised? {
        return Raised(links.exc);
      }
      return Returned(Some(MediaLinks(links.value, Thumbs(links.value))));
    }
    return VideoMedia(video);
  }

  // ---------------------------------------------------------------------------
  // The tweet record

  datatype ApiError = ApiError(title: string, detail: string)
  datatype User = User(id: int, name: string, username: string)
  datatype MediaItem = MediaItem(kind: string, url: string)
  datatype UrlEntity = UrlEntity(url: string, expandedUrl: string)

  /** `tweet.entities`: absent (`None`), without `urls`, or with them. */
  datatype Entities = NoEntities | NoUrls | Urls(urls: seq<UrlEntity>)

  datatype TweetData = TweetData(text: string, createdAt: string, entities: Entities)

  /** The API reply: its errors, the included media (`None` when the key is
      absent) and users, and the tweet itself. */
  datatype Tweet = Tweet(errors: seq<ApiError>, media: Option<seq<MediaItem>>, users: seq<User>, data: TweetData)

  /** The record of a tweet. */
  datatype TwitterMediaRecord = TwitterMediaRecord(
    source: string, linkType: int, id: nat, media: string, userId: int, user: string,
    username: string, date: string, desc: string, links: seq<string>, thumbs: seq<string>)

  /** The text after the loop: every entity's url replaced by its expanded
      url, one entity after the other. */
  function Rewrite(text: string, entities: seq<UrlEntity>): string
    decreases |entities|
  {
    if entities == [] then text
    else
      var last := entities[|entities| - 1];
      Replace(Rewrite(text, entities[..|entities| - 1]), last.url, last.expandedUrl)
  }

  /** Rewriting unfolds from the front too: the first entity is replaced
      first and the others are replaced in the result. */
  lemma {:induction false} RewriteFront(text: string, e: UrlEntity, es: seq<UrlEntity>)
    ensures Rewrite(text, [e] + es) == Rewrite(Replace(text, e.url, e.expandedUrl), es)
    decreases |es|
  {
    if es == [] {
      assert [e] + es == [e];
      assert [e][..0] == [];
    } else {
      var init := es[..|es| - 1];
      assert ([e] + es)[..|es|] == [e] + init;
      assert ([e] + es)[|es|] == es[|es| - 1];
      RewriteFront(text, e, init);
    }
  }

  /** Entities whose (non-empty) urls do not occur in the text leave it as it is. */
  lemma {:induction false} RewriteAbsent(text: string, es: seq<UrlEntity>)
    requires forall k :: 0 <= k < |es| ==> es[k].url != [] && forall i :: !OccursAt(text, es[k].url, i)
    ensures Rewrite(text, es) == text
    decreases |es|
  {
    if es != [] {
      var init := es[..|es| - 1];
      assert forall k :: 0 <= k < |init| ==> init[k] == es[k];
      RewriteAbsent(text, init);
      ReplaceAbsent(text, es[|es| - 1].url, es[|es| - 1].expandedUrl);
    }
  }

  /** The loop over all url entities but the last. */
  method RewriteText(text: string, entities: seq<UrlEntity>) returns (t: string)
    ensures t == Rewrite(text, entities)
  {
    t := text;
    for i := 0 to |entities|
      invariant t == Rewrite(text, entities[..i])
    {
      assert entities[..i + 1][..i] == entities[..i];
      t := Replace(t, entities[i].url, entities[i].expandedUrl);
    }
    assert entities[..|entities|] == entities;
  }

  /** The description before stripping: the entities but the last are
      expanded, then the last entity's url is deleted. */
  function Description(data: TweetData): (r: Outcome<string>)
    ensures data.entities.NoEntities? ==> r == Raised(TypeError)
    ensures data.entities.NoUrls? ==> r == Raised(KeyError)
    ensures data.entities.Urls? && data.entities.urls == [] ==> r == Raised(IndexError)
  {
    match data.entities
    case NoEntities => Raised(TypeError)
    case NoUrls => Raised(KeyError)
    case Urls(urls) =>
      if urls == [] then Raised(IndexError)
      else Returned(Replace(Rewrite(data.text, urls[..|urls| - 1]), urls[|urls| - 1].url, ""))
  }

  /** A tweet whose text ends in its only link, after a space: the link is
      deleted, and stripping removes the space. */
  lemma DescriptionTrailingLink(body: string, link: string, expanded: string)
    requires link != [] && ' ' !in link
    requires forall i :: !OccursAt(body, link, i)
    ensures Description(TweetData(body + " " + link, "", Urls([UrlEntity(link, expanded)]))) == Returned(body + " ")
  {
    var urls := [UrlEntity(link, expanded)];
    var text := body + " " + link;
    assert urls[..0] == [];
    assert Rewrite(text, urls[..0]) == text;
    ReplaceAbsent(body, link, "");
    ReplaceLeading(link, [], "");
    assert link + [] == link;
    assert Replace([], link, "") == [];
    assert Replace(link, link, "") == [];
    assert text == body + [' '] + link;
    ReplaceAcross(body, ' ', link, link, "");
    assert Replace(text, link, "") == body + [' '];
  }

  /** The entities are taken front-first: the first of several is expanded in
      the text and the rest describe the result; a single entity is the last
      one, whose url is deleted. */
  lemma DescriptionExpands(text: string, date: string, e: UrlEntity, urls: seq<UrlEntity>, last: UrlEntity)
    ensures Description(TweetData(text, date, Urls([e] + urls + [last])))
         == Description(TweetData(Replace(text, e.url, e.expandedUrl), date, Urls(urls + [last])))
    ensures Description(TweetData(text, date, Urls([last]))) == Returned(Replace(text, last.url, ""))
  {
    assert ([e] + urls + [last])[..|urls| + 1] == [e] + urls;
    assert (urls + [last])[..|urls|] == urls;
    assert [last][..0] == [];
    RewriteFront(text, e, urls);
  }

  /** When the urls of the entities but the last do not occur in the text,
      the description is the text with the last url deleted. */
  lemma DescriptionAbsentEntities(text: string, date: string, urls: seq<UrlEntity>, last: UrlEntity)
    requires forall k :: 0 <= k < |urls| ==> urls[k].url != [] && forall i :: !OccursAt(text, urls[k].url, i)
    ensures Description(TweetData(text, date, Urls(urls + [last]))) == Returned(Replace(text, last.url, ""))
  {
    assert (urls + [last])[..|urls|] == urls;
    RewriteAbsent(text, urls);
  }

  /** The link to the tweet. */
  function SourceLink(tid: nat, user: User): Outcome<string> {
    Expand(TwitterLinkTemplate, map["id" := NatToString(tid), "author" := user.username])
  }

  /** The record once the media links are known and non-empty. */
  function Assemble(tid: nat, tweet: Tweet, user: User, kind: string, media: MediaLinks): (r: Outcome<Option<TwitterMediaRecord>>)
  {
    match Description(tweet.data)
    case Raised(e) => Raised(e)
    case Returned(text) =>
      match SourceLink(tid, user)
      case Raised(e) => Raised(e)
      case Returned(source) =>
        Returned(Some(TwitterMediaRecord(source, Twitter, tid, kind, user.id, user.name, user.username,
                                         tweet.data.createdAt, Strip(text), media.links, media.thumbs)))
  }

  /** The checks before `get_twitter_media` is called pass. */
  predicate GatesPass(tweet: Tweet) {
    tweet.errors == [] && tweet.media.Some? && tweet.users != [] && tweet.media.value != []
  }

  /** The urls of the included media. */
  function ImageUrls(media: seq<MediaItem>): (r: seq<string>)
    ensures |r| == |media| && forall i :: 0 <= i < |media| ==> r[i] == media[i].url
  {
    if media == [] then [] else [media[0].url] + ImageUrls(media[1..])
  }

  /** What `get_twitter_media` returns for the tweet. */
  function MediaOf(tweet: Tweet, video: Response<VideoReply>): Outcome<Option<MediaLinks>>
    requires GatesPass(tweet)
  {
    var kind := tweet.media.value[0].kind;
    if kind == "photo" then TwitterMedia(kind, ImageUrls(tweet.media.value), video)
    else TwitterMedia(kind, [], video)
  }

  /** `get_twitter_links(tid)` as written, given the API reply and the
      tweetpik reply: a `None` from `get_twitter_media` is subscripted. */
  function TwitterLinks(tid: nat, tweet: Tweet, video: Response<VideoReply>): (r: Outcome<Option<TwitterMediaRecord>>)
    ensures tweet.errors != [] ==> r == Returned(None)
    ensures tweet.errors == [] && tweet.media.None? ==> r == Raised(KeyError)
    ensures tweet.errors == [] && tweet.media.Some? && (tweet.users == [] || tweet.media.value == []) ==> r == Raised(IndexError)
    ensures GatesPass(tweet) && MediaOf(tweet, video) == Returned(None) ==> r == Raised(TypeError)
    ensures (GatesPass(tweet) && MediaOf(tweet, video).Returned? && MediaOf(tweet, video).value.Some?
             && MediaOf(tweet, video).value.value.links == []) ==> r == Returned(None)
  {
    if tweet.errors != [] then Returned(None)
    else if tweet.media.None? then Raised(KeyError)
    else if tweet.users == [] || tweet.media.value == [] then Raised(IndexError)
    else
      var user, kind := tweet.users[0], tweet.media.value[0].kind;
      match MediaOf(tweet, video)
      case Raised(e) => Raised(e)
      case Returned(None) => Raised(TypeError)
      case Returned(Some(media)) =>
        if media.links == [] then Returned(None)
        else Assemble(tid, tweet, user, kind, media)
  }

  /** `get_twitter_links` with the missing check: a `None` from
      `get_twitter_media` gives `None`. */
  function TwitterLinksChecked(tid: nat, tweet: Tweet, video: Response<VideoReply>): (r: Outcome<Option<TwitterMediaRecord>>)
    ensures GatesPass(tweet) && MediaOf(tweet, video) == Returned(None) ==> r == Returned(None)
    ensures !(GatesPass(tweet) && MediaOf(tweet, video) == Returned(None)) ==> r == TwitterLinks(tid, tweet, video)
  {
    if GatesPass(tweet) && MediaOf(tweet, video) == Returned(None) then Returned(None)
    else TwitterLinks(tid, tweet, video)
  }

  /** A video tweet whose tweetpik request fails raises TypeError as written,
      and gives `None` with the check. */
  lemma VideoUnavailable(tid: nat, tweet: Tweet, video: Response<VideoReply>)
    requires GatesPass(tweet) && tweet.media.value[0].kind != "photo" && video.statusCode != 200
    ensures TwitterLinks(tid, tweet, video) == Raised(TypeError)
    ensures TwitterLinksChecked(tid, tweet, video) == Returned(None)
  {
  }

  /** A record is the tweet's: the post link of its author, the stripped
      description, and the links that `get_twitter_media` returned. */
  lemma TwitterLinksRecord(tid: nat, tweet: Tweet, video: Response<VideoReply>)
    requires GatesPass(tweet)
    requires MediaOf(tweet, video).Returned? && MediaOf(tweet, video).value.Some?
    requires MediaOf(tweet, video).value.value.links != []
    requires Description(tweet.data).Returned?
    ensures var media, user := MediaOf(tweet, video).value.value, tweet.users[0];
            TwitterLinksChecked(tid, tweet, video) == Returned(Some(TwitterMediaRecord(
              "https://twitter.com/" + user.username + "/status/" + NatToString(tid), Twitter, tid,
              tweet.media.value[0].kind, user.id, user.name, user.username, tweet.data.createdAt,
              Strip(Description(tweet.data).value), media.links, media.thumbs)))
  {
    TwitterLinkFormat(tweet.users[0].username, NatToString(tid));
    assert map["id" := NatToString(tid), "author" := tweet.users[0].username]
        == map["author" := tweet.users[0].username, "id" := NatToString(tid)];
  }

  /** The description loop and the record, once the media links are known. */
  method AssembleRecord(tid: nat, tweet: Tweet, user: User, kind: string, media: MediaLinks)
    returns (r: Outcome<Option<TwitterMediaRecord>>)
    ensures r == Assemble(tid, tweet, user, kind, media)
  {
    var urls;
    match tweet.data.entities {
      case NoEntities => return Raised(TypeError);
      case NoUrls => return Raised(KeyError);
      case Urls(us) => urls := us;
    }
    var text := RewriteText(tweet.data.text, if urls == [] then [] else urls[..|urls| - 1]);
    if urls == [] {
      return Raised(IndexError);
    }
    text := Replace(text, urls[|urls| - 1].url, "");
    var source := SourceLink(tid, user);
    if source.Raised? {
      return Raised(source.exc);
    }
    return Returned(Some(TwitterMediaRecord(source.value, Twitter, tid, kind, user.id, user.name, user.username,
                                            tweet.data.createdAt, Strip(text), media.links, media.thumbs)));
  }

  /** The method form of `get_twitter_links`, with the check, running both loops. */
  method GetTwitterLinks(tid: nat, tweet: Tweet, video: Response<VideoReply>) returns (r: Outcome<Option<TwitterMediaRecord>>)
    ensures r == TwitterLinksChecked(tid, tweet, video)
  {
    if tweet.errors != [] {
      return Returned(None);
    }
    if tweet.media.None? {
      return Raised(KeyError);
    }
    if tweet.users == [] || tweet.media.value == [] {
      return Raised(IndexError);
    }
    var user, kind := tweet.users[0], tweet.media.value[0].kind;
    var links;
    if kind == "photo" {
      links := GetTwitterMedia(kind, ImageUrls(tweet.media.value), video);
    } else {
      links := GetTwitterMedia(kind, [], video);
    }
    assert links == MediaOf(tweet, video);
    if links.Raised? {
      return Raised(links.exc);
    }
    if links.value.None? || links.value.value.links == [] {
      return Returned(None);
    }
    r := AssembleRecord(tid, tweet, user, kind, links.value.value);
  }
}
