/** The per-browser session of the app (UI.py): the API settings and their
    configured flag, the editable form, the table of saved certificates and
    the last structured reply, together with the page operations that change
    them. The HTTP calls are not made here: each call's outcome is a
    parameter, and an out-parameter says whether the call was made at all. */
module Session {
  import opened Wrappers
  import opened Values
  import opened ReplyParser
  import opened Form
  import opened Flattener
  import opened Records

  /** What a POST to the endpoint produced: a response with its status code
      and the `choices[0].message.content` of its JSON body (`None` when that
      lookup raises), or a request error. */
  datatype Response = Response(status: int, content: Option<Value>) | Failed

  /** The text `get_raw_text` returns for a response: only a 200 response
      with readable content yields anything. */
  function RawTextOf(reply: Response): (r: Option<Value>)
  {
    if reply.Response? && reply.status == 200 then reply.content else None
  }

  /** The content `get_structured_data_from_text` goes on to parse: a
      request error, a 4xx or 5xx status (what `raise_for_status` rejects)
      or unreadable content yields nothing. */
  function AcceptedContent(reply: Response): (r: Option<Value>)
  {
    if reply.Failed? || 400 <= reply.status < 600 then None else reply.content
  }

  /** How the reply parser is handed the content: a dict as a dict, a string
      as text, anything else as a value it rejects. */
  function ReplyOf(content: Value): (r: Reply)
  {
    match content
    case Obj(fields) => DictReply(fields)
    case Str(s) => TextReply(s)
    case _ => OtherReply
  }

  /** Python's `None` for a missing result. */
  function OrNull(r: Option<Value>): (v: Value)
  {
    if r.Some? then r.value else Null
  }

  /** Every response `get_raw_text` reads text from is one that
      `raise_for_status` also lets through, with the same content; a 2xx or
      3xx status other than 200 is read only by the structuring call. */
  lemma RawTextAccepted(reply: Response)
    ensures RawTextOf(reply).Some? ==> AcceptedContent(reply) == RawTextOf(reply)
    ensures reply.Response? && reply.content.Some? && reply.status != 200 && !(400 <= reply.status < 600)
      ==> RawTextOf(reply).None? && AcceptedContent(reply) == reply.content
  {
  }

  /** The structured data extracted from an accepted content. */
  function StructuredOf(content: Value, decode: string -> Option<Value>): (v: Value) {
    OrNull(ParseStructuredResponse(ReplyOf(content), decode))
  }

  /** A dict the model returns as content is the structured data itself. */
  lemma StructuredOfDict(fields: map<string, Value>, decode: string -> Option<Value>)
    ensures StructuredOf(Obj(fields), decode) == Obj(fields)
  {
  }

  /** Content that is neither a dict nor a string gives `None`. */
  lemma StructuredOfOther(content: Value, decode: string -> Option<Value>)
    requires !content.Obj? && !content.Str?
    ensures StructuredOf(content, decode) == Null
  {
  }

  class AppSession {
    var endpoint: string
    var apiKey: string
    var configured: bool
    var form: map<string, Value>
    var certificates: seq<map<string, string>>
    var lastStructured: Value

    /** The form keeps its 28 keys, the flag is only set with both settings
        present, and every saved row has exactly the table's columns. */
    predicate Valid()
      reads this
    {
      && form.Keys == FormKeySet()
      && (configured ==> endpoint != [] && apiKey != [])
      && forall i :: 0 <= i < |certificates| ==> certificates[i].Keys == ColumnSet()
    }

    /** A new session: the settings come from the environment, but the flag
        starts cleared whatever they hold; the form is blank, the table
        empty and there is no structured reply yet. */
    constructor (envEndpoint: string, envKey: string)
      ensures Valid()
      ensures endpoint == envEndpoint && apiKey == envKey && !configured
      ensures form == BlankForm() && certificates == [] && lastStructured == Null
    {
      endpoint := envEndpoint;
      apiKey := envKey;
      configured := false;
      form := BlankForm();
      certificates := [];
      lastStructured := Null;
    }

    /** Save API Settings: store both settings; the session counts as
        configured exactly when neither is empty. */
    method SaveApiSettings(newEndpoint: string, newKey: string)
      requires Valid()
      modifies this
      ensures Valid()
      ensures endpoint == newEndpoint && apiKey == newKey
      ensures configured <==> newEndpoint != [] && newKey != []
      ensures form == old(form) && certificates == old(certificates) && lastStructured == old(lastStructured)
    {
      endpoint := newEndpoint;
      apiKey := newKey;
      configured := newEndpoint != [] && newKey != [];
    }

    /** `get_raw_text`: without settings, no request and no text; otherwise
        the text of a 200 response. */
    method GetRawText(reply: Response) returns (text: Option<Value>, requested: bool)
      ensures requested == configured
      ensures !configured ==> text.None?
      ensures configured ==> text == RawTextOf(reply)
    {
      if !configured {
        return None, false;
      }
      return RawTextOf(reply), true;
    }

    /** `get_structured_data_from_text`: without settings, no request and
        `None`; a failed request gives `None` and keeps the last reply;
        otherwise the parsed content, `None` included, becomes the last
        structured reply and is returned. */
    method GetStructuredData(reply: Response, decode: string -> Option<Value>) returns (data: Value, requested: bool)
      requires Valid()
      modifies this
      ensures Valid()
      ensures requested == configured
      ensures !configured || AcceptedContent(reply).None? ==> data == Null && lastStructured == old(lastStructured)
      ensures configured && AcceptedContent(reply).Some? ==>
        data == StructuredOf(AcceptedContent(reply).value, decode) && lastStructured == data
      ensures endpoint == old(endpoint) && apiKey == old(apiKey) && configured == old(configured)
      ensures form == old(form) && certificates == old(certificates)
    {
      if !configured {
        return Null, false;
      }
      requested := true;
      var content := AcceptedContent(reply);
      if content.None? {
        return Null, requested;
      }
      data := StructuredOf(content.value, decode);
      lastStructured := data;
    }

    /** `update_form_values`: walk the flat dict and overwrite each form key
        it holds with the stored form of its value. */
    method UpdateFormValues(flat: map<string, Value>)
      requires Valid()
      modifies this
      ensures Valid()
      ensures form == UpdatedForm(old(form), flat)
      ensures endpoint == old(endpoint) && apiKey == old(apiKey) && configured == old(configured)
      ensures certificates == old(certificates) && lastStructured == old(lastStructured)
    {
      var pending := flat.Keys;
      ghost var applied: map<string, Value> := map[];
      while pending != {}
        invariant pending + applied.Keys == flat.Keys && pending !! applied.Keys
        invariant forall k :: k in applied ==> applied[k] == flat[k]
        invariant form == UpdatedForm(old(form), applied)
        invariant endpoint == old(endpoint) && apiKey == old(apiKey) && configured == old(configured)
        invariant certificates == old(certificates) && lastStructured == old(lastStructured)
        decreases pending
      {
        var key :| key in pending;
        UpdateExtend(old(form), applied, key, flat[key]);
        if key in form {
          form := form[key := FormValue(flat[key])];
        }
        pending := pending - {key};
        applied := applied[key := flat[key]];
      }
      assert applied == flat;
      assert form.Keys == old(form).Keys;
    }

    /** The part of `process_document` after text extraction: no text means
        no request; otherwise the structuring call runs, and a truthy
        structured reply is flattened into the form and returned; a falsy
        one, or one that cannot be flattened (which raises and is caught),
        gives `None` with the form untouched. */
    method ProcessText(rawText: string, reply: Response, decode: string -> Option<Value>)
      returns (result: Value, requested: bool)
      requires Valid()
      modifies this
      ensures Valid()
      ensures rawText == [] ==> result == Null && !requested && lastStructured == old(lastStructured) && form == old(form)
      ensures rawText != [] ==> requested == configured
      ensures rawText == [] || !configured || AcceptedContent(reply).None? ==>
        result == Null && lastStructured == old(lastStructured) && form == old(form)
      ensures rawText != [] && configured && AcceptedContent(reply).Some? ==>
        var d := StructuredOf(AcceptedContent(reply).value, decode);
        && lastStructured == d
        && (if Truthy(d) && Flatten(d).Some?
            then result == d && form == UpdatedForm(old(form), Flatten(d).value)
            else result == Null && form == old(form))
      ensures result != Null ==>
        Truthy(result) && Flatten(result).Some? && form == UpdatedForm(old(form), Flatten(result).value)
      ensures result == Null ==> form == old(form)
      ensures endpoint == old(endpoint) && apiKey == old(apiKey) && configured == old(configured)
      ensures certificates == old(certificates)
    {
      if rawText == [] {
        return Null, false;
      }
      var data;
      data, requested := GetStructuredData(reply, decode);
      if !Truthy(data) {
        return Null, requested;
      }
      var flat := Flatten(data);
      if flat.None? {
        return Null, requested;
      }
      UpdateFormValues(flat.value);
      result := data;
    }

    /** Save Certificate: append the row built from the submitted widgets,
        leaving the rows already saved as they were. */
    method SaveCertificate(entered: map<string, string>)
      requires Valid() && Complete(entered)
      modifies this
      ensures Valid()
      ensures certificates == old(certificates) + [CertificateRow(entered)]
      ensures endpoint == old(endpoint) && apiKey == old(apiKey) && configured == old(configured)
      ensures form == old(form) && lastStructured == old(lastStructured)
    {
      CertificateRowColumns(entered);
      certificates := certificates + [CertificateRow(entered)];
    }
  }
}
