# yoiyoibot core, modelled in Dafny

yoiyoibot is a chat bot that relays media. A user posts a link to a
Twitter, Pixiv, TikTok, Instagram or YouTube Shorts post in a chat, and
the bot downloads the media and sends it back. This project models the
parts of the bot that decide things, and leaves out the parts that
talk to the network or Telegram:

- **Link table** (`extra/__init__.py`, modules `Links` and `Common`).
  - The `LinkType` and `TwitterStyle` integer ranges and their validators.
  - `getType`, which is plain list indexing.
  - The `link_dict` templates, as pieces of text and named fields.
  - Recognisers for the Twitter post, Twitter image file, Pixiv and
    YouTube Shorts patterns, written by hand at the level of the single
    match each needs. `re.search` is modelled as "leftmost position that
    matches".
- **Providers** (modules `YouTubeShort`, `Twitter`, `TikTok`, `Instagram`).
  - Each download service's reply is taken as an already-decoded
    record, and the module turns it into the bot's media record, `None`,
    or the Python exception the code would raise (`Outcome`).
  - The loops of the source — photo links, tweet text rewriting, the
    YouTube4K `av` scan and the Instagram result list — are methods with
    loop invariants, proved equal to specification functions.
  - The fallbacks: TikMate then LoveTik, and savetube then ssyoutube.
- **Chat settings** (`db/models.py`, module `Models`).
  - `Chat` is a class whose constructor sets the column defaults and
    whose `tw_style` assignment is guarded by the validator.
  - `Chats` is the table, keyed by the caller-supplied primary key.
- **Schema migrations** (`alembic/versions/*.py`). Modules `Schema`
  and `Migrations` hold the shared parts, and there is one module per
  revision.
  - The schema is a value: tables with columns, primary keys and one
    primary-key index per table.
  - `Schema.Database` is the connection whose `Execute` mutates it.
  - Each revision has `Upgrade` and `Downgrade` methods and a
    round-trip lemma.
  - The chain is proved linear, and from the empty schema it reaches a
    single table `chat` whose columns are those of `Chat`.

The model follows the code; for example, the TikTok fallback moves on to LoveTik only when TikMate returns
`None`; an exception from TikMate propagates.

## Model

| member | source | states |
|---|---|---|
| Common.PyMod | extra/twitter.py:79-80 | Python's `%`: for a positive divisor the remainder `x - (x // n) * n`, which lies in `[0, n)`; `ZeroDivisionError` exactly when the divisor is 0 |
| Common.PyIndex | extra/__init__.py:24 | list indexing: `IndexError` exactly outside `-len..len-1`; negative indices count from the end |
| Common.Split | extra/youtube_short.py:118 | `str.split(sep)`: at least one field, and no field contains the separator |
| Common.JoinSplit | extra/youtube_short.py:118 | joining the fields of a split with the separator gives back the string |
| Common.NatToString | extra/tiktok.py:80-81 | `str(n)`: a non-empty string of decimal digits |
| Common.ParseIntOfNat | extra/tiktok.py:80-81 | `int(str(n)) == n` |
| Common.StripBySpec | extra/twitter.py:147 | `str.strip()` returns a contiguous slice, removes only whitespace, and neither starts nor ends with whitespace |
| Common.ReplaceAbsent | extra/twitter.py:136 | `str.replace` changes nothing when the old text does not occur |
| Common.ReplaceAcross | extra/twitter.py:60 | a separator that cannot be part of the old text splits the replacement into independent halves |
| Common.FormatLiteral | extra/__init__.py:66 | `str.format` copies literal text |
| Common.FormatField | extra/__init__.py:66 | `str.format` substitutes a named field's argument; a missing argument raises `KeyError` |
| Common.ExpandIsFormat | extra/__init__.py:66 | expanding a parsed template equals `str.format` on its text |
| Common.FirstWhere | extra/youtube_short.py:43-50 | `next(filter(p, s), default)`: nothing found exactly when no element satisfies `p`; otherwise the first element that does |
| Common.Filter | extra/youtube_short.py:96-102 | the filtered generator keeps only elements of the input, and every element satisfying the condition |
| Common.FilterAppend | extra/youtube_short.py:96-102 | filtering a concatenation is the concatenation of the filtered parts, so the kept elements keep their order and multiplicity |
| Common.FilterOne | extra/youtube_short.py:96-102 | a single element is kept exactly when it satisfies the condition |
| Common.FilterHead | extra/youtube_short.py:96-103 | the first element of the filtered sequence is the first element satisfying the condition |
| Common.FileSize | extra/helper.py:22-32 | `get_file_size`: a falsy link gives 0; otherwise the probe's answer |
| Common.FirstFound | extra/tiktok.py:222-227 | first-non-`None`: the first result is kept unless it is `None`, and only then is the second consulted |
| Links.Range | extra/__init__.py:12 | `range(n)` enumerates `0..n-1` |
| Links.ValidateLinkType | extra/__init__.py:26-28 | true exactly for 0..4 |
| Links.GetType | extra/__init__.py:22-24 | a valid type gives its name; -5..-1 count from the end; any other value raises `IndexError` |
| Links.GetTypeNames | extra/__init__.py:5-24 | TWITTER names "twitter" … YOUTUBE_SHORT names "youtube short" |
| Links.ValidateTwitterStyle | extra/__init__.py:33-41 | true exactly for the three styles 0, 1, 2 |
| Links.LinkDictTypes | extra/__init__.py:45-138 | every entry's type validates; "tiktok" and "vtiktok" are both TIKTOK |
| Links.LinkDictLinks | extra/__init__.py:45-138 | every entry has a "link" template |
| Links.TwitterLinkFormat | extra/__init__.py:66 | the post link is `https://twitter.com/{author}/status/{id}` |
| Links.TwitterFullFormat | extra/__init__.py:67 | the full-size link is `https://pbs.twimg.com/media/{id}?format={format}&name=orig` |
| Links.PixivLinkFormat | extra/__init__.py:80 | the artwork link is `https://www.pixiv.net/artworks/{id}` |
| Links.TikTokLinkFormat | extra/__init__.py:94 | the TikTok link is `https://m.tiktok.com/v/{id}` |
| Links.TikTokSourceFormat | extra/__init__.py:95 | the source link is `https://www.tiktok.com/@{author}/video/{id}` |
| Links.YoutubeShortLinkFormat | extra/__init__.py:135 | the shorts link is `https://www.youtube.com/shorts/{id}` |
| Links.SearchFinds | extra/twitter.py:58 | `re.search` reports the match at the leftmost position where the pattern matches |
| Links.SearchMisses | extra/twitter.py:58 | with no matching position, `re.search` gives `None` |
| Links.DigitsAtEnd | extra/__init__.py:54 | greedy `\d+` takes a whole trailing run of digits |
| Links.TwitterPostRoundTrip | extra/__init__.py:47-66 | the post link filled with a '/'-free author and a decimal id, searched with the twitter pattern, gives back that author and id |
| Links.TwitterFileDotForm | extra/__init__.py:56-65 | an image url `.../media/ID.EXT` gives back id ID and format EXT |
| Links.PixivRoundTrip | extra/__init__.py:71-80 | the artwork link filled with a decimal id gives back that id |
| Links.YoutubeShortRoundTrip | extra/__init__.py:128-135 | the shorts link filled with 11 word characters gives back that id |
| Links.YoutubeShortTooShort | extra/__init__.py:128-134 | after `shorts/`, an id without `/` whose first 11 characters are not all word characters (or that has fewer than 11) never matches, at any position |
| YouTubeShort.LowQuality | extra/youtube_short.py:43-50 | the low-quality link: `None` exactly when no later format has a non-empty url and a quality other than format 0's; otherwise the url of such a format |
| YouTubeShort.YtShorts | extra/youtube_short.py:20-67 | a falsy response, a false status or undecodable JSON gives `None`; a success is the record whose main link is format 0's url, with the sizes and duration |
| YouTubeShort.YtShortsNoLowQuality | extra/youtube_short.py:43-60 | when no later format has both a url and a quality different from the first, the record has no low-quality link and its size is 0 |
| YouTubeShort.Units | extra/youtube_short.py:118 | `map(int, fields)` converts each field |
| YouTubeShort.ZipSum | extra/youtube_short.py:115-121 | the weighted sum can only raise `ValueError` |
| YouTubeShort.ZipSumRaises | extra/youtube_short.py:115-121 | the sum raises exactly when one of the units `zip` pulls fails to convert |
| YouTubeShort.ZipSumRest | extra/youtube_short.py:117-120 | units beyond the one after the last weight are never looked at |
| YouTubeShort.ZipSumExtra | extra/youtube_short.py:117-120 | the unit after the last weight is converted but contributes nothing |
| YouTubeShort.DurationThree | extra/youtube_short.py:115-121 | "h:m:s" with numeric fields is 3600 h + 60 m + s |
| YouTubeShort.DurationClock | extra/youtube_short.py:115-121 | `str(h):str(m):str(s)` is 3600 h + 60 m + s seconds |
| YouTubeShort.DurationExample | extra/youtube_short.py:115-121 | "1:02:03" is 3723 seconds |
| YouTubeShort.DurationLeading | extra/youtube_short.py:117-120 | with five fields or more to its right, anything left of a ':' is ignored |
| YouTubeShort.DurationFifthField | extra/youtube_short.py:117-120 | a fifth field from the right is converted, so it can raise, but it adds nothing |
| YouTubeShort.Keep | extra/youtube_short.py:99-101 | the filter: `downloadable` and `audio`, which count as true when missing, and an ext of "webm" or "mp4", which counts as "mp4" when missing |
| YouTubeShort.MainLink | extra/youtube_short.py:103 | the first kept entry's url; `StopIteration` when nothing is kept |
| YouTubeShort.LowLink | extra/youtube_short.py:104 | the second kept entry's url, or the main link when there is none |
| YouTubeShort.SsYoutube | extra/youtube_short.py:70-127 | a falsy response or undecodable JSON gives `None`; without "meta" it is `None`, or `KeyError` when "message" is missing too; with "meta", the main link's `StopIteration` or `KeyError` propagates, a main link of size 0 gives `None`, a bad duration raises `ValueError`, and otherwise a record is returned; a record has the hard-coded source, the first kept entry as main link, the low-quality link, a positive size and the duration sum |
| YouTubeShort.SsYoutubeIgnoresLink | extra/youtube_short.py:73 | the result does not depend on the argument |
| YouTubeShort.FilterSecond | extra/youtube_short.py:103-104 | the second kept element is the first element satisfying the condition after the first kept one |
| YouTubeShort.SsLinksAreFirstKept | extra/youtube_short.py:96-104 | the main link is the first kept entry's and the low-quality link the next kept entry's, or the main link |
| YouTubeShort.SsNothingKept | extra/youtube_short.py:83-103 | a reply with "meta" but no kept entry makes the converter raise `StopIteration` |
| YouTubeShort.YouTubeShortLinks | extra/youtube_short.py:130-136 | savetube's result unless it is `None`, otherwise ssyoutube's |
| Twitter.FullLink | extra/twitter.py:58-59 | an url the file pattern does not match raises `AttributeError`; otherwise the full template filled with its groups |
| Twitter.CollectPhotoLinks | extra/twitter.py:56-59 | the append loop computes the photo links |
| Twitter.PhotoLinksStops | extra/twitter.py:56-59 | once the loop has raised, later urls change nothing |
| Twitter.PhotoLinksSpec | extra/twitter.py:56-59 | exactly one full link per image url, in order, exactly when every url matches |
| Twitter.Thumbs | extra/twitter.py:60 | `thumbs[i]` is `links[i]` with "orig" replaced by "large" |
| Twitter.FullLinkDotForm | extra/twitter.py:46-59 | `.../media/ID.EXT` becomes the original-size link of ID in format EXT |
| Twitter.ThumbOfFull | extra/twitter.py:60 | the thumbnail of an original-size link is the same link with `name=large` |
| Twitter.VideoMedia | extra/twitter.py:73-81 | a status other than 200 gives `None`; no variant raises `ZeroDivisionError` |
| Twitter.VideoPick | extra/twitter.py:77-81 | the last variant is the link and the one before it the thumbnail; with one variant both are variant 0 |
| Twitter.TwitterMedia | extra/twitter.py:45-81 | photos go through the photo loop; any other kind asks tweetpik |
| Twitter.GetTwitterMedia | extra/twitter.py:45-81 | the method computes `TwitterMedia` |
| Twitter.RewriteText | extra/twitter.py:134-136 | the replace loop computes the rewritten text |
| Twitter.Description | extra/twitter.py:134-137 | missing entities raise `TypeError`, missing urls `KeyError`, an empty url list `IndexError` |
| Twitter.DescriptionExpands | extra/twitter.py:135-137 | the entities are taken front-first: the first of several is expanded and the rest describe the result; a single entity is deleted from the text |
| Twitter.RewriteFront | extra/twitter.py:135-136 | the replace loop unfolds from the front: the first entity is replaced first, the rest in its result |
| Twitter.RewriteAbsent | extra/twitter.py:135-136 | entities whose non-empty urls do not occur in the text leave it unchanged |
| Twitter.DescriptionAbsentEntities | extra/twitter.py:134-137 | when the urls before the last do not occur in the text, the description is the text with the last url deleted |
| Twitter.DescriptionTrailingLink | extra/twitter.py:137 | a text that ends in its only link loses the link and keeps the space before it |
| Twitter.ImageUrls | extra/twitter.py:128 | the urls of the included media, in order |
| Twitter.TwitterLinks | extra/twitter.py:122-150 | as written: API errors give `None`; missing media raises `KeyError`; no user or media raises `IndexError`; a `None` from tweetpik raises `TypeError` |
| Twitter.VideoUnavailable | extra/twitter.py:73-75 | a failing tweetpik request raises `TypeError` as written, and gives `None` once checked |
| Twitter.TwitterLinksChecked | extra/twitter.py:131-133 | a `None` from `get_twitter_media` gives `None`; everything else is as written |
| Twitter.TwitterLinksRecord | extra/twitter.py:138-150 | a record carries the author's post link, the stripped description and the media links |
| Twitter.AssembleRecord | extra/twitter.py:134-150 | the method builds the record once the links are known |
| Twitter.GetTwitterLinks | extra/twitter.py:122-150 | the method, running both loops, computes `TwitterLinksChecked` |
| TikTok.Positional | extra/tiktok.py:21 | positional arguments of `format`, by index |
| TikTok.ThumbForm | extra/tiktok.py:21 | the thumbnail is `...?itemId={id}&location={n}` |
| TikTok.ThumbLocations | extra/tiktok.py:80-81 | the two thumbnails are locations 0 and 1 |
| TikTok.LastMatchNone | extra/tiktok.py:66-70 | no link is found exactly when no entry's fid matches |
| TikTok.LastMatchSome | extra/tiktok.py:66-70 | a found link is the url of the last entry that matches |
| TikTok.PickAv | extra/tiktok.py:66-70 | the loop leaves `link` as the last SD match or the argument, and `link_hd` as the last HD match or unbound |
| TikTok.Yt4k | extra/tiktok.py:57-91 | a status other than 200 or "success" gives `None`; a zero SD size gives `None`; with a non-zero SD size, no HD match raises `UnboundLocalError` and an HD match gives a record |
| TikTok.Yt4kRecord | extra/tiktok.py:72-82 | a record carries the last SD and HD matches and the thumbnails of its id |
| TikTok.GetYt4kLinks | extra/tiktok.py:57-91 | the method, running the loop, computes `Yt4k` |
| TikTok.TikMateLinkForm | extra/tiktok.py:105 | the download link is `https://tikmate.app/download/{token}/{id}.mp4{suffix}` |
| TikTok.TikMateHd | extra/tiktok.py:127-128 | the HD link is the SD link with `?hd=1` appended |
| TikTok.TikMate | extra/tiktok.py:94-152 | a status other than 200 or a failed `success` gives `None` |
| TikTok.TikMateRecord | extra/tiktok.py:123-143 | a success with a non-zero size is the record of the author's video, both links built from token and id |
| TikTok.DropFirst | extra/tiktok.py:192 | `s[1:]` drops the first character, if there is one |
| TikTok.LoveTik | extra/tiktok.py:155-210 | a status other than 200, a status other than "ok", or a message beginning with "Error" gives `None`; no link raises `IndexError`; a first link of size 0 gives `None`, any other first link a record |
| TikTok.LoveTikRecord | extra/tiktok.py:183-201 | `link == link_hd`, `size == size_hd`, and the source author loses its first character |
| TikTok.TikTokLinks | extra/tiktok.py:213-227 | TikMate's result unless it is `None`, otherwise LoveTik's; YouTube4K is not consulted |
| Instagram.Items | extra/instagram.py:54-57 | a sidecar iterates its items; any other post is its own single item |
| Instagram.ItemFields | extra/instagram.py:60-66 | an item with "video" gives a video with `video_url`; otherwise an image with `photos[2].url`; a missing key raises `KeyError` and too few photos `IndexError` |
| Instagram.MediaListStops | extra/instagram.py:58-67 | once an item has raised, later items change nothing |
| Instagram.MediaListSpec | extra/instagram.py:58-68 | one record per item, in item order, exactly when every item has its fields |
| Instagram.MediaKinds | extra/instagram.py:60-66 | a record is a video exactly when its item has "video", and it carries that item's link and preview |
| Instagram.InstagramLinks | extra/instagram.py:49-69 | a timeout or a status other than 1 gives `None`; undecodable JSON raises; with status 1 the result is the item loop's records, or its exception |
| Instagram.SingleItem | extra/instagram.py:56-57 | a post that is not a sidecar gives exactly one record |
| Instagram.GetInstagramLinks | extra/instagram.py:49-69 | the append loop computes `InstagramLinks` |
| Instagram.MediaListAsWritten | extra/instagram.py:67 | as written, an empty item list gives the empty list |
| Instagram.InstagramLinksAsWritten | extra/instagram.py:49-69 | as written: the same `None` and error cases as `InstagramLinks` |
| Instagram.ThreeArguments | extra/instagram.py:67 | as written, every non-empty item list raises (`TypeError` where the four-field record succeeds); an empty sidecar gives [] |
| Models.ValidateTwStyle | db/models.py:39-43 | a Twitter style is returned unchanged; anything else raises `ValueError` |
| Models.Chat.constructor | db/models.py:24-50 | a new row has every mode off and style 0, with the given id, type, name and link |
| Models.Chat.SetTwStyle | db/models.py:39-43 | a style 0..2 is stored; any other value raises `ValueError` and leaves the style unchanged; either way a valid style stays valid and no other field changes |
| Models.Chats.constructor | db/models.py:20-21 | the table starts empty |
| Models.Chats.Get | db/models.py:24 | a row is found exactly when its id is a key, and it carries that id |
| Models.Chats.Insert | db/models.py:24 | a new id adds the row; an id already present raises `IntegrityError` and changes nothing |
| Models.ChatNullability | db/models.py:24-37 | only `name`, `chat_link` and `last_info` are nullable; `id` is a primary key without autoincrement |
| Schema.ApplyWellFormed | alembic/versions/c71fb599b92b_add_include_link_column.py:20-32 | a successful operation keeps the schema well formed |
| Schema.RunWellFormed | alembic/versions/5a23d7a2aed3_rename_columns.py:19-26 | a successful run of operations keeps the schema well formed |
| Schema.RunAppend | alembic/versions/5a23d7a2aed3_rename_columns.py:19-26 | running two lists of operations is running the first, then the second |
| Schema.CreateDrop | alembic/versions/2de57fa5e865_create_table_user.py:20-34 | dropping a table just created restores the schema |
| Schema.AddDrop | alembic/versions/c71fb599b92b_add_include_link_column.py:20-32 | dropping a column just added restores the schema |
| Schema.RenameColumnBack | alembic/versions/d461dd6281a5_rename_last_link_to_last_info.py:19-24 | renaming a column back restores the schema |
| Schema.RenameTableBack | alembic/versions/0bdf085f57f6_rename_user_table_to_chat.py:20-25 | renaming a table back restores the schema |
| Schema.RenameIndexBack | alembic/versions/0bdf085f57f6_rename_user_table_to_chat.py:21-26 | renaming an index back restores the schema |
| Schema.RenameTwoColumns | alembic/versions/5a23d7a2aed3_rename_columns.py:20-21 | two renames in a row move both columns |
| Schema.RenamedTwiceKeeps | alembic/versions/5a23d7a2aed3_rename_columns.py:19-26 | the renames keep the column count and every column's attributes |
| Schema.RenameTwoColumnsBack | alembic/versions/5a23d7a2aed3_rename_columns.py:25-26 | renaming both back in the same order as the upgrade restores the table |
| Schema.RenameTableAndIndex | alembic/versions/0bdf085f57f6_rename_user_table_to_chat.py:20-21 | renaming a table and then its index moves both |
| Schema.RenameTableAndIndexBack | alembic/versions/0bdf085f57f6_rename_user_table_to_chat.py:25-26 | renaming both back restores the schema |
| Schema.ExecAllRun | alembic/versions/5a23d7a2aed3_rename_columns.py:19-26 | executing operations on a database in a good state is running them on its schema |
| Schema.ExecAllFailed | alembic/versions/5a23d7a2aed3_rename_columns.py:19-26 | once an operation has failed, later ones change nothing |
| Schema.ExecAllAppend | alembic/versions/5a23d7a2aed3_rename_columns.py:19-26 | executing two lists of operations is executing the first, then the second |
| Schema.Database.constructor | alembic/versions/2de57fa5e865_create_table_user.py:19-20 | a new database has the empty schema |
| Schema.Database.Execute | alembic/versions/2de57fa5e865_create_table_user.py:19-30 | the database's new state is the old one with the operation executed |
| CreateTableUser.Upgrade | alembic/versions/2de57fa5e865_create_table_user.py:19-30 | creates table "user" |
| CreateTableUser.Downgrade | alembic/versions/2de57fa5e865_create_table_user.py:33-34 | drops table "user" |
| CreateTableUser.UserPkey | alembic/versions/2de57fa5e865_create_table_user.py:22-29 | the primary key is "id" and its index is "user_pkey" |
| CreateTableUser.UpgradeFromEmpty | alembic/versions/2de57fa5e865_create_table_user.py:20-29 | from the empty schema: exactly table "user" with id, full_name, nick_name, last_link, tw_orig, tt_orig, in_orig |
| CreateTableUser.UpgradeFails | alembic/versions/2de57fa5e865_create_table_user.py:20-29 | the upgrade fails exactly when "user" or "user_pkey" already exists |
| CreateTableUser.RoundTrip | alembic/versions/2de57fa5e865_create_table_user.py:19-34 | upgrade then downgrade is the identity |
| AddIncludeLinkColumn.Upgrade | alembic/versions/c71fb599b92b_add_include_link_column.py:19-28 | adds `include_link` |
| AddIncludeLinkColumn.Downgrade | alembic/versions/c71fb599b92b_add_include_link_column.py:31-32 | drops `include_link` |
| AddIncludeLinkColumn.UpgradeAddsOnlyIncludeLink | alembic/versions/c71fb599b92b_add_include_link_column.py:19-32 | succeeds exactly when "user" lacks the column; adds a non-null boolean with server default false and touches nothing else |
| AddIncludeLinkColumn.RoundTrip | alembic/versions/c71fb599b92b_add_include_link_column.py:19-32 | upgrade then downgrade is the identity |
| RenameColumns.Upgrade | alembic/versions/5a23d7a2aed3_rename_columns.py:19-21 | renames full_name and nick_name |
| RenameColumns.Downgrade | alembic/versions/5a23d7a2aed3_rename_columns.py:24-26 | renames both back |
| RenameColumns.UpgradeRenames | alembic/versions/5a23d7a2aed3_rename_columns.py:19-21 | full_name→name and nick_name→chat_link, exactly when those can be renamed, and every attribute is kept |
| RenameColumns.RoundTrip | alembic/versions/5a23d7a2aed3_rename_columns.py:19-26 | upgrade then downgrade is the identity |
| RenameUserTableToChat.Upgrade | alembic/versions/0bdf085f57f6_rename_user_table_to_chat.py:19-21 | renames the table and its index |
| RenameUserTableToChat.Downgrade | alembic/versions/0bdf085f57f6_rename_user_table_to_chat.py:24-26 | renames both back |
| RenameUserTableToChat.UpgradeRenames | alembic/versions/0bdf085f57f6_rename_user_table_to_chat.py:19-21 | user→chat and user_pkey→chat_pkey, with the columns unchanged |
| RenameUserTableToChat.RoundTrip | alembic/versions/0bdf085f57f6_rename_user_table_to_chat.py:19-26 | upgrade then downgrade is the identity |
| AddTypeColumn.Upgrade | alembic/versions/08cccf6bbe79_add_type_column.py:19-28 | adds `type` |
| AddTypeColumn.Downgrade | alembic/versions/08cccf6bbe79_add_type_column.py:31-32 | drops `type` |
| AddTypeColumn.UpgradeAddsOnlyTypeColumn | alembic/versions/08cccf6bbe79_add_type_column.py:19-32 | succeeds exactly when "chat" lacks the column; adds a non-null string with server default "private" and touches nothing else |
| AddTypeColumn.RoundTrip | alembic/versions/08cccf6bbe79_add_type_column.py:19-32 | upgrade then downgrade is the identity |
| RenameLastLinkToLastInfo.Upgrade | alembic/versions/d461dd6281a5_rename_last_link_to_last_info.py:19-20 | renames last_link |
| RenameLastLinkToLastInfo.Downgrade | alembic/versions/d461dd6281a5_rename_last_link_to_last_info.py:23-24 | renames it back |
| RenameLastLinkToLastInfo.UpgradeRenames | alembic/versions/d461dd6281a5_rename_last_link_to_last_info.py:19-20 | last_link→last_info exactly when it can be renamed, with the other columns unchanged |
| RenameLastLinkToLastInfo.RoundTrip | alembic/versions/d461dd6281a5_rename_last_link_to_last_info.py:19-24 | upgrade then downgrade is the identity |
| AddTwStyleColumn.Upgrade | alembic/versions/b5115239219d_add_tw_style_column.py:19-28 | adds `tw_style` |
| AddTwStyleColumn.Downgrade | alembic/versions/b5115239219d_add_tw_style_column.py:31-32 | drops `tw_style` |
| AddTwStyleColumn.UpgradeAddsOnlyTwStyleColumn | alembic/versions/b5115239219d_add_tw_style_column.py:19-32 | succeeds exactly when "chat" lacks the column; adds a non-null integer with server default "0" and touches nothing else |
| AddTwStyleColumn.RoundTrip | alembic/versions/b5115239219d_add_tw_style_column.py:19-32 | upgrade then downgrade is the identity |
| Migrations.ChainIsLinear | alembic/versions/b5115239219d_add_tw_style_column.py:13-14 | the `down_revision` links form one chain from the root 2de57fa5e865 to the head b5115239219d |
| Migrations.UpgradeFromEmpty | alembic/versions/b5115239219d_add_tw_style_column.py:19-28 | every upgrade in chain order succeeds from the empty schema |
| Migrations.HeadMatchesChat | db/models.py:24-50 | the head schema is exactly table "chat" keyed by "id" with the columns of `Chat`, and the same type and nullability |
| Migrations.HeadDefaults | alembic/versions/b5115239219d_add_tw_style_column.py:26 | the server defaults at the head are "private", "0" and false, and the "0" of `tw_style` agrees with the model's default 0 |
| Migrations.SchemasWellFormed | alembic/versions/b5115239219d_add_tw_style_column.py:19-28 | every schema along the chain is well formed |
| Migrations.DowngradeToEmpty | alembic/versions/2de57fa5e865_create_table_user.py:33-34 | all downgrades from the head, head first, give back the empty schema |
| Migrations.FreshDatabaseReachesHead | alembic/versions/b5115239219d_add_tw_style_column.py:19-32 | a fresh database upgraded to the head has the head schema, and downgrading it gives back the empty one |
| Migrations.UpgradeToHead | alembic/versions/b5115239219d_add_tw_style_column.py:19-28 | running the seven upgrade methods executes the whole upgrade list |
| Migrations.DowngradeToBase | alembic/versions/2de57fa5e865_create_table_user.py:33-34 | running the seven downgrade methods executes the whole downgrade list |

## Left out

- JSON `null` values inside the ssyoutube reply's url entries: an entry value is either present or missing, so a `null` url is read as a missing key (`KeyError` for the first kept entry, the main link for the second), whereas the code would compute with `None`.
- Common.Format: the automatic numbering of an empty field `{}` is not modelled; no template of the bot uses it.
- HTTP, sessions, cookies, the XSRF header and request timeouts. Each provider takes the service's reply as a parameter, and a timed-out request is a `None` reply.
- The ssyoutube cookie fetch: its result is not used.
- `get_file_size` is the parameter `probe`, a function from link to size. Only the falsy-link case is interpreted, because the HEAD request is network I/O.
- JSON decoding: replies are given decoded, and a json of `None` stands for a body that does not decode.
- Missing reply keys are modelled only where the model's datatypes carry an `Option` (entities, urls, "meta", "video"/"image", ssyoutube entry keys, a null format url). Every other key is taken to be present.
- The tweepy client: the tweet is a record of its errors, data, included media and users.
- A general regular-expression engine. Only the Twitter post, Twitter image file, Pixiv and YouTube Shorts patterns are modelled as recognisers. The TikTok, vtiktok and Instagram patterns appear only through their link templates.
- Common.IsDigit: `\d`, `\w` and `str.isdigit` are ASCII only here, whereas Python accepts Unicode digits and letters.
- Common.ParseInt: does not accept non-ASCII digits.
- Twitter.TwitterMedia: every media kind other than "photo" (for example "animated_gif") takes the video branch, as in the code.
- Column types are SQL type names without length, and `Column.serverDefault` models only server defaults. The ORM's Python-side defaults are the constructor of `Models.Chat`.
- Schema.Exec: a failed operation leaves the database failed for the rest of the run, as an aborted transaction does. Rollback is not modelled.
- Schema.Apply: `DropColumn` refuses to drop a table's primary-key column, and tables and indexes are kept in separate namespaces, whereas PostgreSQL shares the relation namespace.
- SQLAlchemy sessions, flushing and queries. `Models.Chats` models only row lookup and insertion by primary key.
- `main.py`, `extra/loggers.py`, `extra/upload.py` and `db/__init__.py`: bot polling, logging, uploading with retries and engine setup are I/O. Logging calls inside the core are left out for the same reason.

## Findings

| source | as written | input that shows it | evidently intended | confidence | as-written member | corrected member |
|---|---|---|---|---|---|---|
| extra/twitter.py:131 | `get_twitter_media` returns `None` when tweetpik answers with a status other than 200 (line 75), and line 131 then subscripts it | a video tweet whose tweetpik request gets status 500: `TypeError` | the "no links" check returns `None` | not executed | Twitter.TwitterLinks | Twitter.TwitterLinksChecked |
| extra/instagram.py:67 | `InstaMedia(_prev, _link, _type)` passes three arguments to a record of four fields (source, prev, link, type, declared at extra/namedtuples.py:45-53) | any post with one video item and status 1: `TypeError` | one four-field record per item, with the preview as `prev` | not executed | Instagram.InstagramLinksAsWritten | Instagram.InstagramLinks |

Two more behaviours of the code are reproduced as written, because they
look deliberate or cannot be corrected from the code alone:

- `get_ssyoutube_links` overwrites its argument with a fixed shorts link,
  so the converter is always asked about the same video
  (`YouTubeShort.SsYoutubeIgnoresLink`).
- `get_yt4k_links` leaves `link_hd` unbound when no HD entry matches, and
  a found SD size then raises `UnboundLocalError` (`TikTok.Yt4k`).
  YouTube4K is not part of the TikTok fallback, so this never reaches the bot.
