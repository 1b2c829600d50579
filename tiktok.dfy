/** TikTok: the post-processing of the replies of three download services
    (YouTube4K, TikMate, LoveTik) into a video record, and the fallback from
    TikMate to LoveTik. */
module TikTok {
  import opened Common
  import opened Links

  /** The record handed to the uploader. */
  datatype TikTokVideo = TikTokVideo(
    source: string, id: string, link: string, linkHd: string, size: nat, sizeHd: nat,
    thumb0: string, thumb1: string)

  // ---------------------------------------------------------------------------
  // Templates

  /** The thumbnail link `...?itemId={0}&location={1}`. */
  const ThumbTemplate: Template := [Text("https://www.tiktok.com/api/img/?itemId="), Field("0"), Text("&location="), Field("1")]

  /** The TikMate download link `.../download/{0}/{1}.mp4{2}`. */
  const TikMateTemplate: Template :=
    [Text("https://tikmate.app/download/"), Field("0"), Text("/"), Field("1"), Text(".mp4"), Field("2")]

  /** Positional arguments of `format`, by their index. */
  function Positional(xs: seq<string>): (args: map<string, string>)
    requires |xs| <= 3
    ensures |xs| >= 1 ==> "0" in args && args["0"] == xs[0]
    ensures |xs| >= 2 ==> "1" in args && args["1"] == xs[1]
    ensures |xs| >= 3 ==> "2" in args && args["2"] == xs[2]
  {
    if |xs| == 0 then map[]
    else if |xs| == 1 then map["0" := xs[0]]
    else if |xs| == 2 then map["0" := xs[0], "1" := xs[1]]
    else map["0" := xs[0], "1" := xs[1], "2" := xs[2]]
  }

  /** Text, field, text, field. */
  lemma ExpandTwoFields(a: string, m: string, b: string, n: string, args: map<string, string>)
    requires m in args && n in args
    ensures Expand([Text(a), Field(m), Text(b), Field(n)], args) == Returned(a + args[m] + b + args[n])
  {
    var t := [Text(a), Field(m), Text(b), Field(n)];
    assert t[4..] == [] && t[3..][1..] == t[4..] && t[2..][1..] == t[3..] && t[1..][1..] == t[2..];
    assert args[n] + [] == args[n];
    assert Expand(t[3..], args) == Returned(args[n]);
    assert Expand(t[2..], args) == Returned(b + args[n]);
    assert Expand(t[1..], args) == Returned(args[m] + (b + args[n]));
    assert a + (args[m] + (b + args[n])) == a + args[m] + b + args[n];
  }

  /** Text, field, text, field, text, field. */
  lemma ExpandThreeFields(a: string, m: string, b: string, n: string, c: string, o: string, args: map<string, string>)
    requires m in args && n in args && o in args
    ensures Expand([Text(a), Field(m), Text(b), Field(n), Text(c), Field(o)], args)
         == Returned(a + args[m] + b + args[n] + c + args[o])
  {
    var t := [Text(a), Field(m), Text(b), Field(n), Text(c), Field(o)];
    assert t[2..] == [Text(b), Field(n), Text(c), Field(o)];
    ExpandTwoFields(b, n, c, o, args);
    assert t[1..][1..] == t[2..];
    assert Expand(t[1..], args) == Returned(args[m] + (b + args[n] + c + args[o]));
    assert a + (args[m] + (b + args[n] + c + args[o])) == a + args[m] + b + args[n] + c + args[o];
  }

  /** `thumb.format(id, location)` */
  function Thumb(id: string, location: nat): Outcome<string> {
    Expand(ThumbTemplate, Positional([id, NatToString(location)]))
  }

  lemma ThumbForm(id: string, location: nat)
    ensures Thumb(id, location) == Returned("https://www.tiktok.com/api/img/?itemId=" + id + "&location=" + NatToString(location))
  {
    ExpandTwoFields("https://www.tiktok.com/api/img/?itemId=", "0", "&location=", "1", Positional([id, NatToString(location)]));
  }

  /** The two thumbnails of a video differ only in the location, 0 and 1. */
  lemma ThumbLocations(id: string)
    ensures Thumb(id, 0) == Returned("https://www.tiktok.com/api/img/?itemId=" + id + "&location=0")
    ensures Thumb(id, 1) == Returned("https://www.tiktok.com/api/img/?itemId=" + id + "&location=1")
  {
    ThumbForm(id, 0);
    ThumbForm(id, 1);
    assert NatToString(0) == [DigitChar(0)] == "0";
    assert NatToString(1) == [DigitChar(1)] == "1";
    var head := "https://www.tiktok.com/api/img/?itemId=" + id;
    assert head + "&location=" + "0" == head + "&location=0";
    assert head + "&location=" + "1" == head + "&location=1";
  }

  /** The two thumbnails, in the order of the record. */
  function Thumbs(id: string): Outcome<(string, string)> {
    match Thumb(id, 0)
    case Raised(e) => Raised(e)
    case Returned(t0) =>
      match Thumb(id, 1)
      case Raised(e) => Raised(e)
      case Returned(t1) => Returned((t0, t1))
  }

  // ---------------------------------------------------------------------------
  // YouTube4K

  /** One entry of `data.av`. */
  datatype AvEntry = AvEntry(fid: string, url: string)

  datatype Yt4kData = Yt4kData(id: string, av: seq<AvEntry>)

  datatype Yt4kReply = Yt4kReply(status: string, data: Yt4kData)

  const SdPrefix := "bytevc1_540p_"
  const HdPrefix := "h264_540p_"

  /** `re.match(prefix + r"\d+-0", fid)`: the prefix, a run of digits, then
      `-0`, at the start of `fid`; what follows does not matter. The greedy
      run gives back no digit, since a digit never matches `-`. */
  predicate FidMatches(fid: string, prefix: string) {
    StartsWith(fid, prefix)
    && var digits := TakeWhile(fid[|prefix|..], IsDigit);
       digits != [] && StartsWith(fid[|prefix| + |digits|..], "-0")
  }

  /** The url of the last entry whose fid matches, if any. */
  function LastMatch(av: seq<AvEntry>, prefix: string): Option<string>
    decreases |av|
  {
    if av == [] then None
    else if FidMatches(av[|av| - 1].fid, prefix) then Some(av[|av| - 1].url)
    else LastMatch(av[..|av| - 1], prefix)
  }

  /** `LastMatch` finds nothing exactly when no entry matches. */
  lemma {:induction false} LastMatchNone(av: seq<AvEntry>, prefix: string)
    ensures LastMatch(av, prefix).None? <==> forall i :: 0 <= i < |av| ==> !FidMatches(av[i].fid, prefix)
    decreases |av|
  {
    if av != [] && !FidMatches(av[|av| - 1].fid, prefix) {
      var front := av[..|av| - 1];
      LastMatchNone(front, prefix);
      assert forall i :: 0 <= i < |front| ==> front[i] == av[i];
    }
  }

  /** What `LastMatch` finds is the url of the entry `i` that matches last. */
  lemma {:induction false} LastMatchSome(av: seq<AvEntry>, prefix: string) returns (i: nat)
    requires LastMatch(av, prefix).Some?
    ensures i < |av| && FidMatches(av[i].fid, prefix) && av[i].url == LastMatch(av, prefix).value
    ensures forall j :: i < j < |av| ==> !FidMatches(av[j].fid, prefix)
    decreases |av|
  {
    var n := |av| - 1;
    if FidMatches(av[n].fid, prefix) {
      i := n;
    } else {
      var front := av[..n];
      i := LastMatchSome(front, prefix);
      assert av[i] == front[i];
      assert forall j :: i < j < n ==> av[j] == front[j];
    }
  }

  /** The loop over `av`: `link` starts as the argument and `link_hd` unbound. */
  method PickAv(av: seq<AvEntry>, link: string) returns (sd: string, hd: Option<string>)
    ensures sd == (if LastMatch(av, SdPrefix).Some? then LastMatch(av, SdPrefix).value else link)
    ensures hd == LastMatch(av, HdPrefix)
  {
    sd, hd := link, None;
    for i := 0 to |av|
      invariant sd == (if LastMatch(av[..i], SdPrefix).Some? then LastMatch(av[..i], SdPrefix).value else link)
      invariant hd == LastMatch(av[..i], HdPrefix)
    {
      assert av[..i + 1][..i] == av[..i];
      if FidMatches(av[i].fid, SdPrefix) {
        sd := av[i].url;
      }
      if FidMatches(av[i].fid, HdPrefix) {
        hd := Some(av[i].url);
      }
    }
    assert av[..|av|] == av;
  }

  /** `get_yt4k_links(link)` given the API reply and the size probe. */
  function Yt4k(probe: string -> nat, res: Response<Yt4kReply>, link: string): (r: Outcome<Option<TikTokVideo>>)
    ensures res.statusCode != 200 ==> r == Returned(None)
    ensures res.statusCode == 200 && res.json.None? ==> r == Raised(JSONDecodeError)
    ensures res.statusCode == 200 && res.json.Some? && res.json.value.status != "success" ==> r == Returned(None)
    ensures res.statusCode == 200 && res.json.Some? && res.json.value.status == "success" ==>
              var av := res.json.value.data.av;
              var sd := if LastMatch(av, SdPrefix).Some? then LastMatch(av, SdPrefix).value else link;
              && (FileSize(probe, Some(sd)) == 0 ==> r == Returned(None))
              && (FileSize(probe, Some(sd)) != 0 && LastMatch(av, HdPrefix).None? ==> r == Raised(UnboundLocalError))
              && (FileSize(probe, Some(sd)) != 0 && LastMatch(av, HdPrefix).Some? ==> r.Returned? && r.value.Some?)
  {
    if res.statusCode != 200 then Returned(None)
    else if res.json.None? then Raised(JSONDecodeError)
    else if res.json.value.status != "success" then Returned(None)
    else
      var data := res.json.value.data;
      var id := data.id;
      var sd := if LastMatch(data.av, SdPrefix).Some? then LastMatch(data.av, SdPrefix).value else link;
      var hd := LastMatch(data.av, HdPrefix);
      var size := FileSize(probe, Some(sd));
      if size == 0 then Returned(None)
      else
        TikTokLinkFormat(id);
        ThumbLocations(id);
        match Expand(TikTokLinkTemplate, map["id" := id])
        case Raised(e) => Raised(e)
        case Returned(source) =>
          if hd.None? then Raised(UnboundLocalError)
          else
            match Thumbs(id)
            case Raised(e) => Raised(e)
            case Returned(thumbs) =>
              Returned(Some(TikTokVideo(source, id, sd, hd.value, size, FileSize(probe, hd), thumbs.0, thumbs.1)))
  }

  /** A record of YouTube4K carries the last SD-matching and the last
      HD-matching url, the short TikTok link and both thumbnails. */
  lemma Yt4kRecord(probe: string -> nat, res: Response<Yt4kReply>, link: string)
    requires Yt4k(probe, res, link).Returned? && Yt4k(probe, res, link).value.Some?
    ensures res.json.Some?
    ensures var v, data := Yt4k(probe, res, link).value.value, res.json.value.data;
            && v.source == "https://m.tiktok.com/v/" + data.id
            && v.link == (if LastMatch(data.av, SdPrefix).Some? then LastMatch(data.av, SdPrefix).value else link)
            && Some(v.linkHd) == LastMatch(data.av, HdPrefix)
            && v.size == probe(v.link) > 0
            && v.thumb0 == "https://www.tiktok.com/api/img/?itemId=" + data.id + "&location=0"
            && v.thumb1 == "https://www.tiktok.com/api/img/?itemId=" + data.id + "&location=1"
  {
    TikTokLinkFormat(res.json.value.data.id);
    ThumbLocations(res.json.value.data.id);
  }

  /** The method form of `get_yt4k_links`, running the loop. */
  method GetYt4kLinks(probe: string -> nat, res: Response<Yt4kReply>, link: string) returns (r: Outcome<Option<TikTokVideo>>)
    ensures r == Yt4k(probe, res, link)
  {
    if res.statusCode != 200 {
      return Returned(None);
    }
    if res.json.None? {
      return Raised(JSONDecodeError);
    }
    if res.json.value.status != "success" {
      return Returned(None);
    }
    var data := res.json.value.data;
    var sd, hd := PickAv(data.av, link);
    var size := FileSize(probe, Some(sd));
    if size == 0 {
      return Returned(None);
    }
    var source := Expand(TikTokLinkTemplate, map["id" := data.id]);
    if source.Raised? {
      return Raised(source.exc);
    }
    if hd.None? {
      return Raised(UnboundLocalError);
    }
    var thumbs := Thumbs(data.id);
    if thumbs.Raised? {
      return Raised(thumbs.exc);
    }
    return Returned(Some(TikTokVideo(source.value, data.id, sd, hd.value, size, FileSize(probe, hd),
                                     thumbs.value.0, thumbs.value.1)));
  }

  // ---------------------------------------------------------------------------
  // TikMate

  datatype TikMateReply = TikMateReply(success: bool, id: string, token: string, authorId: string)

  /** `tikmate.format(token, id, suffix)` */
  function TikMateLink(token: string, id: string, suffix: string): Outcome<string> {
    Expand(TikMateTemplate, Positional([token, id, suffix]))
  }

  lemma TikMateLinkForm(token: string, id: string, suffix: string)
    ensures TikMateLink(token, id, suffix) == Returned("https://tikmate.app/download/" + token + "/" + id + ".mp4" + suffix)
  {
    ExpandThreeFields("https://tikmate.app/download/", "0", "/", "1", ".mp4", "2", Positional([token, id, suffix]));
  }

  /** The HD link is the SD link with `?hd=1` appended. */
  lemma TikMateHd(token: string, id: string)
    ensures TikMateLink(token, id, "") == Returned("https://tikmate.app/download/" + token + "/" + id + ".mp4")
    ensures TikMateLink(token, id, "?hd=1") == Returned(TikMateLink(token, id, "").value + "?hd=1")
  {
    TikMateLinkForm(token, id, "");
    TikMateLinkForm(token, id, "?hd=1");
    var base := "https://tikmate.app/download/" + token + "/" + id + ".mp4";
    assert base + "" == base;
  }

  /** `get_tikmate_links(link)` given the API reply and the size probe. */
  function TikMate(probe: string -> nat, res: Response<TikMateReply>): (r: Outcome<Option<TikTokVideo>>)
    ensures res.statusCode != 200 ==> r == Returned(None)
    ensures res.statusCode == 200 && res.json.None? ==> r == Raised(JSONDecodeError)
    ensures res.statusCode == 200 && res.json.Some? && !res.json.value.success ==> r == Returned(None)
  {
    if res.statusCode != 200 then Returned(None)
    else if res.json.None? then Raised(JSONDecodeError)
    else if !res.json.value.success then Returned(None)
    else
      var reply := res.json.value;
      match TikMateLink(reply.token, reply.id, "")
      case Raised(e) => Raised(e)
      case Returned(link) =>
        match TikMateLink(reply.token, reply.id, "?hd=1")
        case Raised(e) => Raised(e)
        case Returned(linkHd) =>
          var size := FileSize(probe, Some(link));
          if size == 0 then Returned(None)
          else
            match Expand(TikTokSourceTemplate, map["id" := reply.id, "author" := reply.authorId])
            case Raised(e) => Raised(e)
            case Returned(source) =>
              match Thumbs(reply.id)
              case Raised(e) => Raised(e)
              case Returned(thumbs) =>
                Returned(Some(TikTokVideo(source, reply.id, link, linkHd, size, FileSize(probe, Some(linkHd)),
                                          thumbs.0, thumbs.1)))
  }

  /** TikMate's reply becomes the record of its author's video: both links
      are built from the token and the id, the HD one with `?hd=1`; a zero
      SD size gives `None`. */
  lemma TikMateRecord(probe: string -> nat, res: Response<TikMateReply>)
    requires res.statusCode == 200 && res.json.Some? && res.json.value.success
    ensures var reply := res.json.value;
            var link := "https://tikmate.app/download/" + reply.token + "/" + reply.id + ".mp4";
            && (probe(link) == 0 ==> TikMate(probe, res) == Returned(None))
            && (probe(link) != 0 ==> TikMate(probe, res) == Returned(Some(TikTokVideo(
                  "https://www.tiktok.com/@" + reply.authorId + "/video/" + reply.id, reply.id,
                  link, link + "?hd=1", probe(link), FileSize(probe, Some(link + "?hd=1")),
                  "https://www.tiktok.com/api/img/?itemId=" + reply.id + "&location=0",
                  "https://www.tiktok.com/api/img/?itemId=" + reply.id + "&location=1"))))
  {
    var reply := res.json.value;
    TikMateHd(reply.token, reply.id);
    TikTokSourceFormat(reply.authorId, reply.id);
    ThumbLocations(reply.id);
  }

  // ---------------------------------------------------------------------------
  // LoveTik

  datatype LoveTikLink = LoveTikLink(a: string)

  datatype LoveTikReply = LoveTikReply(status: string, mess: string, vid: string, links: seq<LoveTikLink>, author: string)

  /** Python's `s[1:]`: empty for an empty string. */
  function DropFirst(s: string): (r: string)
    ensures s == [] ==> r == []
    ensures s != [] ==> [s[0]] + r == s
  {
    if s == [] then [] else s[1..]
  }

  /** LoveTik's own verdict: status "ok" and a message not starting with "Error". */
  predicate LoveTikAccepts(reply: LoveTikReply) {
    reply.status == "ok" && !StartsWith(reply.mess, "Error")
  }

  /** `get_lovetik_links(link)` given the API reply and the size probe. */
  function LoveTik(probe: string -> nat, res: Response<LoveTikReply>): (r: Outcome<Option<TikTokVideo>>)
    ensures res.statusCode != 200 ==> r == Returned(None)
    ensures res.statusCode == 200 && res.json.None? ==> r == Raised(JSONDecodeError)
    ensures res.statusCode == 200 && res.json.Some? && !LoveTikAccepts(res.json.value) ==> r == Returned(None)
    ensures res.statusCode == 200 && res.json.Some? && LoveTikAccepts(res.json.value) && res.json.value.links == [] ==> r == Raised(IndexError)
    ensures res.statusCode == 200 && res.json.Some? && LoveTikAccepts(res.json.value) && res.json.value.links != [] ==>
              && (FileSize(probe, Some(res.json.value.links[0].a)) == 0 ==> r == Returned(None))
              && (FileSize(probe, Some(res.json.value.links[0].a)) != 0 ==> r.Returned? && r.value.Some?)
  {
    if res.statusCode != 200 then Returned(None)
    else if res.json.None? then Raised(JSONDecodeError)
    else if !LoveTikAccepts(res.json.value) then Returned(None)
    else
      var reply := res.json.value;
      if reply.links == [] then Raised(IndexError)
      else
        var link := reply.links[0].a;
        var size := FileSize(probe, Some(link));
        if size == 0 then Returned(None)
        else
          TikTokSourceFormat(DropFirst(reply.author), reply.vid);
          ThumbLocations(reply.vid);
          match Expand(TikTokSourceTemplate, map["id" := reply.vid, "author" := DropFirst(reply.author)])
          case Raised(e) => Raised(e)
          case Returned(source) =>
            match Thumbs(reply.vid)
            case Raised(e) => Raised(e)
            case Returned(thumbs) =>
              Returned(Some(TikTokVideo(source, reply.vid, link, link, size, size, thumbs.0, thumbs.1)))
  }

  /** LoveTik's record has one link for both qualities, one size for both,
      and the author without its first character (the `@`). */
  lemma LoveTikRecord(probe: string -> nat, res: Response<LoveTikReply>)
    requires LoveTik(probe, res).Returned? && LoveTik(probe, res).value.Some?
    ensures res.json.Some? && LoveTikAccepts(res.json.value) && res.json.value.links != []
    ensures var v, reply := LoveTik(probe, res).value.value, res.json.value;
            && v.link == v.linkHd == reply.links[0].a
            && v.size == v.sizeHd == probe(v.link) > 0
            && v.source == "https://www.tiktok.com/@" + DropFirst(reply.author) + "/video/" + reply.vid
            && v.thumb0 == "https://www.tiktok.com/api/img/?itemId=" + reply.vid + "&location=0"
            && v.thumb1 == "https://www.tiktok.com/api/img/?itemId=" + reply.vid + "&location=1"
  {
    var reply := res.json.value;
    TikTokSourceFormat(DropFirst(reply.author), reply.vid);
    ThumbLocations(reply.vid);
  }

  // ---------------------------------------------------------------------------
  // Fallback

  /** `get_tiktok_links(link)`: TikMate first, LoveTik only when TikMate finds
      nothing; YouTube4K plays no part. */
  function TikTokLinks(probe: string -> nat, tikmate: Response<TikMateReply>, lovetik: Response<LoveTikReply>)
    : (r: Outcome<Option<TikTokVideo>>)
    ensures TikMate(probe, tikmate) != Returned(None) ==> r == TikMate(probe, tikmate)
    ensures TikMate(probe, tikmate) == Returned(None) ==> r == LoveTik(probe, lovetik)
  {
    FirstFound(TikMate(probe, tikmate), LoveTik(probe, lovetik))
  }
}
