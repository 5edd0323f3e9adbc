/**
  The format-writer registry of the framework, as values: writers keyed by the
  content type they produce, a default content type, and the lookup that
  resolves the wildcard content type through the default.
 */
module FormatWriters {
  import opened Options

  /** The content type a client sends when it accepts any representation. */
  const CONTENT_TYPE_WILDCARD: string := "*/*"

  /** A response serialiser; only the content type it produces matters here. */
  class Writer {
    const contentType: string

    constructor (contentType: string)
      ensures this.contentType == contentType
    {
      this.contentType := contentType;
    }
  }

  /** PHP's `!$value` for the default content type: null, "" and "0" all count as unset. */
  predicate Unset(defaultContentType: Option<string>)
  {
    defaultContentType.None? || defaultContentType.value == "" || defaultContentType.value == "0"
  }

  /** The array key PHP looks up for the default: a null key reads as "". */
  function DefaultKey(defaultContentType: Option<string>): (key: string)
  {
    if defaultContentType.None? then "" else defaultContentType.value
  }

  datatype WriterTable = WriterTable(writers: map<string, Writer>, defaultContentType: Option<string>)
  {
    /** Registers `writer` under its content type; it becomes the default while none is set. */
    function Add(writer: Writer): (t: WriterTable)
      ensures t.writers.Keys == writers.Keys + {writer.contentType}
      ensures t.writers[writer.contentType] == writer
      ensures forall ct :: ct in writers && ct != writer.contentType ==> t.writers[ct] == writers[ct]
      ensures Unset(defaultContentType) ==> t.defaultContentType == Some(writer.contentType)
      ensures !Unset(defaultContentType) ==> t.defaultContentType == defaultContentType
    {
      var d := if Unset(defaultContentType) then Some(writer.contentType) else defaultContentType;
      WriterTable(writers[writer.contentType := writer], d)
    }

    /** Overrides the default, whether or not a writer is registered for it. */
    function SetDefault(contentType: string): (t: WriterTable)
      ensures t.writers == writers
      ensures t.defaultContentType == Some(contentType)
    {
      WriterTable(writers, Some(contentType))
    }

    /** The writer for `contentType`, with the wildcard read as the default; None when absent. */
    function Lookup(contentType: string): (r: Option<Writer>)
      ensures r.Some? ==> r.value in writers.Values
      ensures contentType != CONTENT_TYPE_WILDCARD ==> (r.Some? <==> contentType in writers)
      ensures contentType != CONTENT_TYPE_WILDCARD && r.Some? ==> r.value == writers[contentType]
      ensures contentType == CONTENT_TYPE_WILDCARD ==>
        (r.Some? <==> DefaultKey(defaultContentType) in writers)
      ensures contentType == CONTENT_TYPE_WILDCARD && r.Some? ==> r.value == writers[DefaultKey(defaultContentType)]
    {
      var key := if contentType == CONTENT_TYPE_WILDCARD then DefaultKey(defaultContentType) else contentType;
      if key in writers then Some(writers[key]) else None
    }
  }

  /** The registry of a freshly constructed framework. */
  const Empty: WriterTable := WriterTable(map[], None)

  /** The two calls that change the registry. */
  datatype WriterOp = AddWriter(writer: Writer) | SetDefaultWriter(contentType: string)

  /** The registry after the calls `ops`, made in order on a fresh framework. */
  function Run(ops: seq<WriterOp>): (t: WriterTable)
  {
    if ops == [] then Empty
    else
      var t := Run(ops[..|ops| - 1]);
      match ops[|ops| - 1]
      case AddWriter(w) => t.Add(w)
      case SetDefaultWriter(ct) => t.SetDefault(ct)
  }

  /** The writer of the last `AddWriter` call for `contentType`, if there is one. */
  ghost function LastAdded(ops: seq<WriterOp>, contentType: string): (w: Option<Writer>)
  {
    if ops == [] then None
    else
      var last := ops[|ops| - 1];
      if last.AddWriter? && last.writer.contentType == contentType then Some(last.writer)
      else LastAdded(ops[..|ops| - 1], contentType)
  }

  /** Each content type holds the writer added last for it: adding replaces, nothing else removes. */
  lemma {:induction false} StoredIsLastAdded(ops: seq<WriterOp>, contentType: string)
    ensures contentType in Run(ops).writers <==> LastAdded(ops, contentType).Some?
    ensures contentType in Run(ops).writers ==>
      Run(ops).writers[contentType] == LastAdded(ops, contentType).value
  {
    if ops != [] {
      StoredIsLastAdded(ops[..|ops| - 1], contentType);
    }
  }

  /** A concrete content type resolves to the writer added last for it, or to nothing. */
  lemma ResolveConcrete(ops: seq<WriterOp>, contentType: string)
    requires contentType != CONTENT_TYPE_WILDCARD
    ensures Run(ops).Lookup(contentType) == LastAdded(ops, contentType)
  {
    StoredIsLastAdded(ops, contentType);
  }

  /** The wildcard resolves exactly as the default content type does. */
  lemma ResolveWildcard(ops: seq<WriterOp>)
    ensures Run(ops).Lookup(CONTENT_TYPE_WILDCARD) == LastAdded(ops, DefaultKey(Run(ops).defaultContentType))
  {
    StoredIsLastAdded(ops, DefaultKey(Run(ops).defaultContentType));
  }

  /** Once the default is set, adding writers leaves it alone. */
  lemma {:induction false} DefaultSticks(ops: seq<WriterOp>, n: nat)
    requires n <= |ops|
    requires !Unset(Run(ops[..n]).defaultContentType)
    requires forall k :: n <= k < |ops| ==> ops[k].AddWriter?
    ensures Run(ops).defaultContentType == Run(ops[..n]).defaultContentType
    decreases |ops|
  {
    if n < |ops| {
      var init := ops[..|ops| - 1];
      assert init[..n] == ops[..n];
      DefaultSticks(init, n);
    } else {
      assert ops[..n] == ops;
    }
  }

  /**
    With writers only added, the first one's content type stays the default
    (unless that type is falsy in PHP), so the wildcard resolves to the writer
    last added for that type.
   */
  lemma FirstAddedIsDefault(ops: seq<WriterOp>)
    requires |ops| > 0 && ops[0].AddWriter?
    requires !Unset(Some(ops[0].writer.contentType))
    requires forall k :: 0 <= k < |ops| ==> ops[k].AddWriter?
    ensures Run(ops).defaultContentType == Some(ops[0].writer.contentType)
    ensures Run(ops).Lookup(CONTENT_TYPE_WILDCARD) == LastAdded(ops, ops[0].writer.contentType)
  {
    assert ops[..1][..0] == [];
    DefaultSticks(ops, 1);
    ResolveWildcard(ops);
  }

  /**
    After `setDefaultFormatWriter(ct)` with a non-falsy `ct`, later additions
    keep `ct` as the default, and the wildcard resolves to the writer last
    added for `ct`.
   */
  lemma SetDefaultPersists(ops: seq<WriterOp>, i: nat)
    requires i < |ops| && ops[i].SetDefaultWriter?
    requires !Unset(Some(ops[i].contentType))
    requires forall k :: i < k < |ops| ==> ops[k].AddWriter?
    ensures Run(ops).defaultContentType == Some(ops[i].contentType)
    ensures Run(ops).Lookup(CONTENT_TYPE_WILDCARD) == LastAdded(ops, ops[i].contentType)
  {
    assert ops[..i + 1][..i] == ops[..i];
    DefaultSticks(ops, i + 1);
    ResolveWildcard(ops);
  }
}
