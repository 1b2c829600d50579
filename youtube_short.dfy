/** YouTube Shorts: the post-processing of the two download services' replies
    (the savetube.me "ytshorts" API and the ssyoutube converter), the
    "h:mm:ss" duration sum, and the fallback from the first to the second. */
module YouTubeShort {
  import opened Common

  /** The record handed to the uploader. */
  datatype YouTubeShortMedia = YouTubeShortMedia(
    source: string, id: string, thumb: string, title: string,
    link: string, linkLq: Option<string>, size: nat, sizeLq: nat, duration: int)

  /** A truthy JSON string: present (not `null`) and not empty. */
  predicate Truthy(s: Option<string>) {
    s.Some? && s.value != ""
  }

  // ---------------------------------------------------------------------------
  // savetube.me

  /** One entry of `data.video_formats`; a `null` url is `None`. */
  datatype VideoFormat = VideoFormat(url: Option<string>, quality: string)

  datatype YtShortsData = YtShortsData(
    id: string, thumbnail: string, title: string, duration: int, videoFormats: seq<VideoFormat>)

  datatype YtShortsReply = YtShortsReply(status: bool, data: YtShortsData)

  /** The low-quality link: the url of the first format after the first one
      whose url is truthy and whose quality differs from the first one's. */
  function LowQuality(formats: seq<VideoFormat>): (r: Option<string>)
    requires |formats| >= 1
    ensures r.None? <==> forall i :: 1 <= i < |formats| ==> !(Truthy(formats[i].url) && formats[i].quality != formats[0].quality)
    ensures r.Some? ==> exists i :: 1 <= i < |formats| && formats[i].url == r && r.value != ""
                          && formats[i].quality != formats[0].quality
                          && forall j :: 1 <= j < i ==> !(Truthy(formats[j].url) && formats[j].quality != formats[0].quality)
  {
    var q0 := formats[0].quality;
    var later := formats[1..];
    var f := FirstWhere(later, (v: VideoFormat) => Truthy(v.url) && v.quality != q0);
    if f.None? then
      assert forall i :: 1 <= i < |formats| ==> formats[i] == later[i - 1];
      None
    else
      var k :| 0 <= k < |later| && later[k] == f.value && Truthy(later[k].url) && later[k].quality != q0
             && forall j :: 0 <= j < k ==> !(Truthy(later[j].url) && later[j].quality != q0);
      assert formats[k + 1] == later[k];
      assert forall j :: 1 <= j < k + 1 ==> formats[j] == later[j - 1];
      f.value.url
  }

  /** `get_ytshorts_links(link)` given the reply of the info API (`None` when
      the request timed out) and the size probe. */
  function YtShorts(probe: string -> nat, response: Option<Response<YtShortsReply>>, link: string)
    : (r: Outcome<Option<YouTubeShortMedia>>)
    ensures response.None? || !Ok(response.value) || response.value.json.None? ==> r == Returned(None)
    ensures response.Some? && Ok(response.value) && response.value.json.Some? ==>
              var reply := response.value.json.value;
              && (!reply.status ==> r == Returned(None))
              && (reply.status && reply.data.videoFormats == [] ==> r == Raised(IndexError))
              && (reply.status && reply.data.videoFormats != [] ==>
                    var formats := reply.data.videoFormats;
                    var size := FileSize(probe, formats[0].url);
                    && (size == 0 ==> r == Returned(None))
                    && (size != 0 ==>
                          && r.Returned? && r.value.Some?
                          && r.value.value.source == link
                          && Some(r.value.value.link) == formats[0].url
                          && r.value.value.size == size
                          && r.value.value.linkLq == LowQuality(formats)
                          && r.value.value.sizeLq == FileSize(probe, LowQuality(formats))
                          && r.value.value.duration == reply.data.duration))
  {
    if response.None? || !Ok(response.value) then Returned(None)
    else if response.value.json.None? then Returned(None)   // JSONDecodeError is caught
    else
      var reply := response.value.json.value;
      if !reply.status then Returned(None)
      else
        var data := reply.data;
        var videos := data.videoFormats;
        if videos == [] then Raised(IndexError)
        else
          var main := videos[0].url;
          var lq := LowQuality(videos);
          var size := FileSize(probe, main);
          if size == 0 then Returned(None)
          else
            Returned(Some(YouTubeShortMedia(link, data.id, data.thumbnail, data.title,
                                            main.value, lq, size, FileSize(probe, lq), data.duration)))
  }

  /** Without a later format that has a url and a quality different from the
      first one, the record carries no low-quality link and its size is 0. */
  lemma YtShortsNoLowQuality(probe: string -> nat, response: Option<Response<YtShortsReply>>, link: string)
    requires response.Some? && response.value.json.Some?
    requires var formats := response.value.json.value.data.videoFormats;
             |formats| >= 1 && forall i :: 1 <= i < |formats| ==>
               !(Truthy(formats[i].url) && formats[i].quality != formats[0].quality)
    requires YtShorts(probe, response, link).Returned? && YtShorts(probe, response, link).value.Some?
    ensures YtShorts(probe, response, link).value.value.linkLq == None
    ensures YtShorts(probe, response, link).value.value.sizeLq == 0
  {
  }

  // ---------------------------------------------------------------------------
  // Durations: sum(unit * mul for unit, mul in zip(map(int, reversed(d.split(":"))), (1, 60, 3600, 86400)))

  const Weights: seq<int> := [1, 60, 3600, 86400]

  function Reverse<T>(s: seq<T>): (r: seq<T>)
    ensures |r| == |s|
    ensures forall i :: 0 <= i < |s| ==> r[i] == s[|s| - 1 - i]
  {
    if s == [] then [] else Reverse(s[1..]) + [s[0]]
  }

  /** `map(int, fields)`: each field converted, `None` where `int()` raises ValueError. */
  function Units(fields: seq<string>): (r: seq<Option<int>>)
    ensures |r| == |fields|
    ensures forall i :: 0 <= i < |fields| ==> r[i] == ParseInt(fields[i])
  {
    if fields == [] then [] else [ParseInt(fields[0])] + Units(fields[1..])
  }

  /** The weighted sum over `zip(units, weights)`. `zip` pulls a unit,
      converting its field, before it finds the weights exhausted, so one
      unit past the last weight is converted but not counted. */
  function ZipSum(units: seq<Option<int>>, weights: seq<int>): (r: Outcome<int>)
    ensures r.Raised? ==> r.exc == ValueError
    decreases |units|
  {
    if units == [] then Returned(0)
    else if units[0].None? then Raised(ValueError)
    else if weights == [] then Returned(0)
    else
      match ZipSum(units[1..], weights[1..])
      case Raised(e) => Raised(e)
      case Returned(rest) => Returned(units[0].value * weights[0] + rest)
  }

  /** The duration in seconds of an "h:mm:ss"-style string. */
  function Duration(d: string): Outcome<int> {
    ZipSum(Units(Reverse(Split(d, ':'))), Weights)
  }

  /** The sum raises exactly when one of the units `zip` pulls, the first
      `|weights| + 1`, failed to convert. */
  lemma {:induction false} ZipSumRaises(units: seq<Option<int>>, weights: seq<int>)
    ensures ZipSum(units, weights).Raised? <==> exists i :: 0 <= i < |units| && i <= |weights| && units[i].None?
    decreases |units|
  {
    if units != [] && units[0].Some? && weights != [] {
      ZipSumRaises(units[1..], weights[1..]);
      if ZipSum(units[1..], weights[1..]).Raised? {
        var i :| 0 <= i < |units[1..]| && i <= |weights[1..]| && units[1..][i].None?;
        assert units[i + 1] == units[1..][i];
      } else {
        forall i | 1 <= i < |units| && i <= |weights|
          ensures units[i].Some?
        {
          assert units[i] == units[1..][i - 1];
        }
      }
    }
  }

  /** Units beyond the one after the last weight are never looked at. */
  lemma {:induction false} ZipSumRest(units: seq<Option<int>>, weights: seq<int>)
    requires |units| > |weights|
    ensures ZipSum(units, weights) == ZipSum(units[..|weights| + 1], weights)
    decreases |weights|
  {
    var front := units[..|weights| + 1];
    assert front[0] == units[0];
    if weights != [] {
      assert front[1..] == units[1..][..|weights[1..]| + 1];
      ZipSumRest(units[1..], weights[1..]);
    }
  }

  /** The unit after the last weight is converted but contributes nothing. */
  lemma {:induction false} ZipSumExtra(units: seq<Option<int>>, weights: seq<int>)
    requires |units| == |weights| + 1
    ensures units[|weights|].Some? ==> ZipSum(units, weights) == ZipSum(units[..|weights|], weights)
    ensures units[|weights|].None? ==> ZipSum(units, weights) == Raised(ValueError)
    decreases |weights|
  {
    var front := units[..|weights|];
    if weights != [] {
      ZipSumExtra(units[1..], weights[1..]);
      assert front[0] == units[0];
      assert front[1..] == units[1..][..|weights[1..]|];
      assert units[1..][|weights[1..]|] == units[|weights|];
    }
  }

  /** Digit fields convert to their decimal value. */
  lemma ParseDigitField(f: string)
    requires |f| > 0 && AllDigits(f)
    ensures ParseInt(f) == Some(DigitsValue(f))
  {
    StripOfDigits(f);
    DigitsTailOfDigits(f[1..]);
    ParseIntOfDigits(f);
  }

  lemma DigitsNoColon(f: string)
    requires AllDigits(f)
    ensures ':' !in f
  {
    forall i | 0 <= i < |f|
      ensures f[i] != ':'
    {
      assert IsDigit(f[i]);
    }
  }

  /** "h:m:s" splits into its three fields. */
  lemma SplitClock(h: string, m: string, s: string)
    requires ':' !in h && ':' !in m && ':' !in s
    ensures Split(h + ":" + m + ":" + s, ':') == [h, m, s]
  {
    SplitSingle(s, ':');
    SplitCons(m, ':', s);
    assert h + ":" + m + ":" + s == h + [':'] + (m + [':'] + s);
    SplitCons(h, ':', m + [':'] + s);
  }

  /** The weighted sum of three converted fields, seconds first. */
  lemma ZipSumThree(s: int, m: int, h: int)
    ensures ZipSum([Some(s), Some(m), Some(h)], Weights) == Returned(3600 * h + 60 * m + s)
  {
    var u := [Some(s), Some(m), Some(h)];
    assert u[1..][1..][1..] == [];
    assert ZipSum(u[1..][1..], Weights[1..][1..]) == Returned(3600 * h);
  }

  /** Three fields without ':' that convert to numbers give the weighted sum. */
  lemma DurationThree(h: string, m: string, s: string, vh: int, vm: int, vs: int)
    requires ':' !in h && ':' !in m && ':' !in s
    requires ParseInt(h) == Some(vh) && ParseInt(m) == Some(vm) && ParseInt(s) == Some(vs)
    ensures Duration(h + ":" + m + ":" + s) == Returned(3600 * vh + 60 * vm + vs)
  {
    SplitClock(h, m, s);
    ReverseThree(h, m, s);
    assert Units([s, m, h]) == [Some(vs), Some(vm), Some(vh)];
    ZipSumThree(vs, vm, vh);
  }

  /** `str(h) + ":" + str(m) + ":" + str(s)` gives 3600 h + 60 m + s seconds. */
  lemma DurationClock(h: nat, m: nat, s: nat)
    ensures Duration(NatToString(h) + ":" + NatToString(m) + ":" + NatToString(s)) == Returned(3600 * h + 60 * m + s)
  {
    DigitsNoColon(NatToString(h));
    DigitsNoColon(NatToString(m));
    DigitsNoColon(NatToString(s));
    ParseIntOfNat(h);
    ParseIntOfNat(m);
    ParseIntOfNat(s);
    DurationThree(NatToString(h), NatToString(m), NatToString(s), h, m, s);
  }

  lemma ReverseThree<T>(x: T, y: T, z: T)
    ensures Reverse([x, y, z]) == [z, y, x]
  {
    assert [x, y, z][1..][1..] == [z];
  }

  lemma DigitsValueTwo(f: string)
    requires |f| == 2 && AllDigits(f)
    ensures DigitsValue(f) == 10 * (f[0] as int - '0' as int) + (f[1] as int - '0' as int)
  {
    assert f[..|f| - 1] == f[..1];
    DigitsValueOne(f[..1]);
  }

  lemma DigitsValueOne(f: string)
    requires |f| == 1 && AllDigits(f)
    ensures DigitsValue(f) == f[0] as int - '0' as int
  {
    assert f[..|f| - 1] == [];
  }

  /** `int()` of a one- or two-digit field. */
  lemma ParseShort(f: string, v: nat)
    requires 1 <= |f| <= 2 && AllDigits(f)
    requires v == if |f| == 1 then f[0] as int - '0' as int
                  else 10 * (f[0] as int - '0' as int) + (f[1] as int - '0' as int)
    ensures ParseInt(f) == Some(v)
  {
    ParseDigitField(f);
    if |f| == 2 {
      DigitsValueTwo(f);
    } else {
      DigitsValueOne(f);
    }
  }

  /** The fields of "1:02:03": a number each, with a leading zero where there are two digits. */
  lemma ExampleFields(h: string, m: string, s: string)
    requires h == "1" && m == "02" && s == "03"
    ensures ParseInt(h) == Some(1) && ParseInt(m) == Some(2) && ParseInt(s) == Some(3)
    ensures ':' !in h && ':' !in m && ':' !in s
  {
    assert h[0] == '1' && m[0] == '0' && m[1] == '2' && s[0] == '0' && s[1] == '3';
    ParseShort(h, 1);
    ParseShort(m, 2);
    ParseShort(s, 3);
  }

  /** "1:02:03" is 3723 seconds. */
  lemma DurationExample(d: string)
    requires d == "1:02:03"
    ensures Duration(d) == Returned(3723)
  {
    var h, m, s := "1", "02", "03";
    assert d == h + ":" + m + ":" + s;
    ExampleFields(h, m, s);
    DurationThree(h, m, s, 1, 2, 3);
  }

  /** Splitting at a separator between two parts splits each part. */
  lemma {:induction false} SplitAppend(a: string, c: char, b: string)
    ensures Split(a + [c] + b, c) == Split(a, c) + Split(b, c)
    decreases |a|
  {
    var s := a + [c] + b;
    if a == [] {
      assert s[0] == c && s[1..] == b;
    } else {
      assert s[0] == a[0] && s[1..] == a[1..] + [c] + b;
      SplitAppend(a[1..], c, b);
      var ft, fb := Split(a[1..], c), Split(b, c);
      if a[0] != c {
        assert (ft + fb)[0] == ft[0] && (ft + fb)[1..] == ft[1..] + fb;
      }
    }
  }

  /** Reversing a concatenation reverses the order of the parts. */
  lemma ReverseAppend<T>(x: seq<T>, y: seq<T>)
    ensures Reverse(x + y) == Reverse(y) + Reverse(x)
  {
    var r, l := Reverse(x + y), Reverse(y) + Reverse(x);
    assert |r| == |l|;
    forall i | 0 <= i < |r| ensures r[i] == l[i] {
      if i < |y| {
        assert l[i] == Reverse(y)[i];
      } else {
        assert l[i] == Reverse(x)[i - |y|];
      }
    }
  }

  /** Converting a concatenation converts each part. */
  lemma UnitsConcat(x: seq<string>, y: seq<string>)
    ensures Units(x + y) == Units(x) + Units(y)
  {
    var u, v := Units(x + y), Units(x) + Units(y);
    forall i | 0 <= i < |u| ensures u[i] == v[i] {
      if i < |x| {
        assert (x + y)[i] == x[i];
      } else {
        assert (x + y)[i] == y[i - |x|];
      }
    }
  }

  /** The converted fields of `a + ":" + b`, right to left: those of `b`, then those of `a`. */
  lemma UnitsAppend(a: string, b: string)
    ensures Units(Reverse(Split(a + ":" + b, ':'))) == Units(Reverse(Split(b, ':'))) + Units(Reverse(Split(a, ':')))
  {
    assert a + ":" + b == a + [':'] + b;
    SplitAppend(a, ':', b);
    ReverseAppend(Split(a, ':'), Split(b, ':'));
    UnitsConcat(Reverse(Split(b, ':')), Reverse(Split(a, ':')));
  }

  /** Units behind the first five do not change the sum. */
  lemma ZipSumLeading(ub: seq<Option<int>>, ua: seq<Option<int>>)
    requires |ub| >= 5
    ensures ZipSum(ub + ua, Weights) == ZipSum(ub, Weights)
  {
    assert (ub + ua)[..5] == ub[..5];
    ZipSumRest(ub + ua, Weights);
    ZipSumRest(ub, Weights);
  }

  /** A fifth unit behind four is converted but not counted. */
  lemma ZipSumFifth(ub: seq<Option<int>>, ua: seq<Option<int>>)
    requires |ub| == 4 && |ua| >= 1
    ensures ua[0].None? ==> ZipSum(ub + ua, Weights) == Raised(ValueError)
    ensures ua[0].Some? ==> ZipSum(ub + ua, Weights) == ZipSum(ub, Weights)
  {
    var all := ub + ua;
    ZipSumRest(all, Weights);
    var front := all[..5];
    assert front[..4] == ub;
    assert front[4] == ua[0];
    ZipSumExtra(front, Weights);
  }

  /** With five or more fields after it, anything in front of a ':' is ignored:
      only the rightmost four fields count and the fifth is merely converted. */
  lemma DurationLeading(a: string, b: string)
    requires |Split(b, ':')| >= 5
    ensures Duration(a + ":" + b) == Duration(b)
  {
    UnitsAppend(a, b);
    ZipSumLeading(Units(Reverse(Split(b, ':'))), Units(Reverse(Split(a, ':'))));
  }

  /** With exactly four fields after it, the field in front of the ':' is
      converted: a non-number raises ValueError, a number is not counted. */
  lemma DurationFifthField(a: string, b: string)
    requires |Split(b, ':')| == 4
    ensures var f := Split(a, ':')[|Split(a, ':')| - 1];
            && (ParseInt(f).None? ==> Duration(a + ":" + b) == Raised(ValueError))
            && (ParseInt(f).Some? ==> Duration(a + ":" + b) == Duration(b))
  {
    UnitsAppend(a, b);
    var fa := Split(a, ':');
    var ua := Units(Reverse(fa));
    assert ua[0] == ParseInt(fa[|fa| - 1]);
    ZipSumFifth(Units(Reverse(Split(b, ':'))), ua);
  }

  // ---------------------------------------------------------------------------
  // ssyoutube

  /** The shorts link the converter is always asked about: the argument is
      overwritten before the request. */
  const HardCodedShort := "https://www.youtube.com/shorts/ckUx9TCpDBU"

  /** One entry of the reply's `url` list; a missing key is `None`. */
  datatype SsEntry = SsEntry(url: Option<string>, downloadable: Option<bool>, audio: Option<bool>, ext: Option<string>)

  datatype SsMeta = SsMeta(title: string, duration: string)

  /** The converter's reply; `meta` and `message` are `None` when missing. */
  datatype SsReply = SsReply(meta: Option<SsMeta>, id: string, thumb: string, urls: seq<SsEntry>, message: Option<string>)

  /** The generator's condition: a missing `downloadable` or `audio` counts as
      true, a missing `ext` as "mp4", and the extension must be webm or mp4. */
  predicate Keep(e: SsEntry) {
    && (if e.downloadable.Some? then e.downloadable.value else true)
    && (if e.audio.Some? then e.audio.value else true)
    && (var ext := if e.ext.Some? then e.ext.value else "mp4"; ext == "webm" || ext == "mp4")
  }

  /** `next(videos)["url"]`: the first kept entry's url. */
  function MainLink(kept: seq<SsEntry>): (r: Outcome<string>)
    ensures kept == [] ==> r == Raised(StopIteration)
    ensures kept != [] && kept[0].url.None? ==> r == Raised(KeyError)
    ensures kept != [] && kept[0].url.Some? ==> r == Returned(kept[0].url.value)
  {
    if kept == [] then Raised(StopIteration)
    else if kept[0].url.None? then Raised(KeyError)
    else Returned(kept[0].url.value)
  }

  /** `next(videos, {}).get("url", main)`: the second kept entry's url, or the
      main link when there is no second entry or it has no url. */
  function LowLink(kept: seq<SsEntry>, main: string): (r: string)
    ensures |kept| < 2 ==> r == main
    ensures |kept| >= 2 && kept[1].url.Some? ==> r == kept[1].url.value
    ensures |kept| >= 2 && kept[1].url.None? ==> r == main
  {
    if |kept| >= 2 && kept[1].url.Some? then kept[1].url.value else main
  }

  /** `get_ssyoutube_links(link)` given the converter's reply (`None` when the
      request timed out) and the size probe. */
  function SsYoutube(probe: string -> nat, response: Option<Response<SsReply>>, link: string)
    : (r: Outcome<Option<YouTubeShortMedia>>)
    ensures response.None? || !Ok(response.value) || response.value.json.None? ==> r == Returned(None)
    ensures response.Some? && response.value.json.Some? && response.value.json.value.meta.None? ==>
              r == (if Ok(response.value) && response.value.json.value.message.None? then Raised(KeyError) else Returned(None))
    ensures response.Some? && Ok(response.value) && response.value.json.Some? && response.value.json.value.meta.Some? ==>
              var reply := response.value.json.value;
              var main := MainLink(Filter(reply.urls, Keep));
              && (main.Raised? ==> r == Raised(main.exc))
              && (main.Returned? && FileSize(probe, Some(main.value)) == 0 ==> r == Returned(None))
              && (main.Returned? && FileSize(probe, Some(main.value)) != 0 ==>
                    && (Duration(reply.meta.value.duration).Raised? ==> r == Raised(ValueError))
                    && (Duration(reply.meta.value.duration).Returned? ==> r.Returned? && r.value.Some?))
    ensures r.Returned? && r.value.Some? ==>
              var reply := response.value.json.value;
              var kept := Filter(reply.urls, Keep);
              && reply.meta.Some? && MainLink(kept).Returned?
              && r.value.value.source == HardCodedShort
              && r.value.value.link == MainLink(kept).value
              && r.value.value.linkLq == Some(LowLink(kept, MainLink(kept).value))
              && r.value.value.size == probe(MainLink(kept).value) > 0
              && r.value.value.sizeLq == FileSize(probe, Some(LowLink(kept, MainLink(kept).value)))
              && Duration(reply.meta.value.duration) == Returned(r.value.value.duration)
  {
    var link := HardCodedShort;
    if response.None? || !Ok(response.value) then Returned(None)
    else if response.value.json.None? then Returned(None)   // JSONDecodeError is caught
    else
      var reply := response.value.json.value;
      if reply.meta.None? then
        if reply.message.None? then Raised(KeyError) else Returned(None)
      else
        var kept := Filter(reply.urls, Keep);
        match MainLink(kept)
        case Raised(e) => Raised(e)
        case Returned(main) =>
          var lq := LowLink(kept, main);
          var size := FileSize(probe, Some(main));
          if size == 0 then Returned(None)
          else
            match Duration(reply.meta.value.duration)
            case Raised(e) => Raised(e)
            case Returned(duration) =>
              Returned(Some(YouTubeShortMedia(link, reply.id, reply.thumb, reply.meta.value.title,
                                              main, Some(lq), size, FileSize(probe, Some(lq)), duration)))
  }

  /** The argument plays no part: the converter is asked about the hard-coded link. */
  lemma SsYoutubeIgnoresLink(probe: string -> nat, response: Option<Response<SsReply>>, a: string, b: string)
    ensures SsYoutube(probe, response, a) == SsYoutube(probe, response, b)
  {
  }

  /** Once `s[i]` is the first element satisfying `p`, filtering starts with it. */
  lemma {:induction false} FilterAt<T(!new)>(s: seq<T>, p: T -> bool, i: nat)
    requires i < |s| && p(s[i]) && forall j :: 0 <= j < i ==> !p(s[j])
    ensures Filter(s, p) == [s[i]] + Filter(s[i + 1..], p)
    decreases i
  {
    if i > 0 {
      FilterAt(s[1..], p, i - 1);
      assert s[1..][i..] == s[i + 1..];
    }
  }

  /** After the first element satisfying `p`, the second kept element is the
      first one after it that satisfies `p`. */
  lemma FilterSecond<T(!new)>(s: seq<T>, p: T -> bool, i: nat)
    requires i < |s| && p(s[i]) && forall j :: 0 <= j < i ==> !p(s[j])
    ensures Filter(s, p)[0] == s[i]
    ensures |Filter(s, p)| >= 2 <==> FirstWhere(s[i + 1..], p).Some?
    ensures |Filter(s, p)| >= 2 ==> Filter(s, p)[1] == FirstWhere(s[i + 1..], p).value
  {
    FilterAt(s, p, i);
    FilterHead(s[i + 1..], p);
  }

  /** The main link is the url of the first entry the filter keeps, and the
      low-quality link that of the next kept entry after it, or the main link. */
  lemma SsLinksAreFirstKept(urls: seq<SsEntry>, i: nat)
    requires i < |urls| && Keep(urls[i]) && forall j :: 0 <= j < i ==> !Keep(urls[j])
    ensures var kept := Filter(urls, Keep);
            && MainLink(kept) == (if urls[i].url.Some? then Returned(urls[i].url.value) else Raised(KeyError))
            && (urls[i].url.Some? ==>
                 var next := FirstWhere(urls[i + 1..], Keep);
                 LowLink(kept, urls[i].url.value) ==
                   if next.Some? && next.value.url.Some? then next.value.url.value else urls[i].url.value)
  {
    FilterSecond(urls, Keep, i);
  }

  /** When the reply has its `meta` but no entry of `url` is kept, the
      converter raises StopIteration. */
  lemma SsNothingKept(probe: string -> nat, response: Option<Response<SsReply>>, link: string)
    requires response.Some? && Ok(response.value) && response.value.json.Some?
    requires response.value.json.value.meta.Some?
    requires var urls := response.value.json.value.urls;
             forall j :: 0 <= j < |urls| ==> !Keep(urls[j])
    ensures MainLink(Filter(response.value.json.value.urls, Keep)) == Raised(StopIteration)
    ensures SsYoutube(probe, response, link) == Raised(StopIteration)
  {
    FilterHead(response.value.json.value.urls, Keep);
  }

  // ---------------------------------------------------------------------------
  // Fallback

  /** `get_youtube_short_links(link)`: savetube.me first, the converter only
      when it finds nothing. */
  function YouTubeShortLinks(probe: string -> nat, ytshorts: Option<Response<YtShortsReply>>,
                             ssyoutube: Option<Response<SsReply>>, link: string)
    : (r: Outcome<Option<YouTubeShortMedia>>)
    ensures YtShorts(probe, ytshorts, link) != Returned(None) ==> r == YtShorts(probe, ytshorts, link)
    ensures YtShorts(probe, ytshorts, link) == Returned(None) ==> r == SsYoutube(probe, ssyoutube, link)
  {
    FirstFound(YtShorts(probe, ytshorts, link), SsYoutube(probe, ssyoutube, link))
  }
}
