/** The per-chat settings row (`Chat`), its guarded `tw_style` attribute,
    the table of rows keyed by chat id, and the columns the model declares. */
module Models {
  import opened Common
  import opened Schema
  import Links

  /** The Python-side default of `tw_style`. */
  const DefaultTwStyle := Links.ImageLink

  /** `validate_twitter_style(key, value)`: the value itself when it is a
      Twitter style, `ValueError` otherwise. */
  function ValidateTwStyle(value: int): (r: Outcome<int>)
    ensures r.Returned? <==> 0 <= value <= 2
    ensures r.Returned? ==> r.value == value
    ensures r.Raised? ==> r == Raised(ValueError)
  {
    if Links.ValidateTwitterStyle(value) then Returned(value) else Raised(ValueError)
  }

  /** One row of table "chat". `kind` is the column `type`. */
  class Chat {
    const id: int
    var kind: string
    var name: Option<string>
    var chatLink: Option<string>
    var lastInfo: Option<string>
    var twOrig: bool
    var twStyle: int
    var ttOrig: bool
    var inOrig: bool
    var includeLink: bool

    /** The style is one of the three Twitter styles. */
    ghost predicate Valid()
      reads this
    {
      Links.ValidateTwitterStyle(twStyle)
    }

    /** A new row with its column defaults: every mode off and style 0. */
    constructor (id: int, kind: string, name: Option<string>, chatLink: Option<string>)
      ensures Valid()
      ensures this.id == id && this.kind == kind && this.name == name && this.chatLink == chatLink
      ensures lastInfo == None
      ensures !twOrig && !ttOrig && !inOrig && !includeLink
      ensures twStyle == DefaultTwStyle
    {
      this.id, this.kind, this.name, this.chatLink := id, kind, name, chatLink;
      lastInfo := None;
      twOrig, ttOrig, inOrig, includeLink := false, false, false, false;
      twStyle := DefaultTwStyle;
    }

    /** `chat.tw_style = value`: a Twitter style is stored, anything else
        raises `ValueError` and leaves the row as it was. No other field
        changes either way. */
    method SetTwStyle(value: int) returns (r: Outcome<()>)
      modifies this`twStyle
      ensures 0 <= value <= 2 ==> r == Returned(()) && twStyle == value && Valid()
      ensures !(0 <= value <= 2) ==> r == Raised(ValueError) && twStyle == old(twStyle) && (old(Valid()) ==> Valid())
    {
      var checked := ValidateTwStyle(value);
      if checked.Raised? {
        return Raised(checked.exc);
      }
      twStyle := checked.value;
      return Returned(());
    }
  }

  /** Table "chat": rows keyed by their caller-supplied id. */
  class Chats {
    var rows: map<int, Chat>

    /** Each row is stored under its own id, so there is one row per id. */
    ghost predicate Valid()
      reads this
    {
      forall id :: id in rows ==> rows[id].id == id
    }

    constructor ()
      ensures Valid() && rows == map[]
    {
      rows := map[];
    }

    /** The row of a chat id, if there is one. */
    function Get(id: int): (r: Option<Chat>)
      reads this
      requires Valid()
      ensures r.Some? <==> id in rows
      ensures r.Some? ==> r.value.id == id
    {
      if id in rows then Some(rows[id]) else None
    }

    /** Inserting a row: its id is the primary key and is not generated, so
        an id already present raises `IntegrityError` and nothing changes. */
    method Insert(chat: Chat) returns (r: Outcome<()>)
      requires Valid()
      modifies this
      ensures Valid()
      ensures old(chat.id in rows) ==> r == Raised(IntegrityError) && rows == old(rows)
      ensures old(chat.id !in rows) ==> r == Returned(()) && rows == old(rows)[chat.id := chat]
    {
      if chat.id in rows {
        return Raised(IntegrityError);
      }
      rows := rows[chat.id := chat];
      return Returned(());
    }
  }

  /** The columns the model declares. Its defaults are applied by the ORM,
      not by the server, so none has a server default. */
  const ChatColumns: map<string, Column> := map[
    "id" := Column(BigInteger, false, false, None),
    "type" := Column(String, false, false, None),
    "name" := Column(String, true, false, None),
    "chat_link" := Column(String, true, false, None),
    "last_info" := Column(String, true, false, None),
    "tw_orig" := Column(Boolean, false, false, None),
    "tw_style" := Column(Integer, false, false, None),
    "tt_orig" := Column(Boolean, false, false, None),
    "in_orig" := Column(Boolean, false, false, None),
    "include_link" := Column(Boolean, false, false, None)
  ]

  const ChatTableName := "chat"
  const ChatPrimaryKey := "id"

  /** The row's non-null columns are exactly `id`, `type` and the flags and
      style; `name`, `chat_link` and `last_info` are optional. */
  lemma ChatNullability()
    ensures forall c :: c in ChatColumns ==> (ChatColumns[c].nullable <==> c in {"name", "chat_link", "last_info"})
    ensures ChatPrimaryKey in ChatColumns && !ChatColumns[ChatPrimaryKey].autoincrement
  {
  }
}
