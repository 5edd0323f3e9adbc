/**
  The framework object: the wrapper registry and the format-writer registry
  it holds, updated in place by its methods.
 */
module Framework {
  import opened Options
  import opened PriorityTiers
  import opened FormatWriters

  /**
    A processor wrapper, as far as the registry sees it: the names it answers
    `instanceof` to (its class with every ancestor class and interface) and its
    back-reference to the framework that owns it.
   */
  class Wrapper {
    const kinds: set<string>
    var level3: Level3?

    constructor (kinds: set<string>)
      ensures this.kinds == kinds && level3 == null
    {
      this.kinds := kinds;
      level3 := null;
    }

    method SetLevel3(level3: Level3)
      modifies this
      ensures this.level3 == level3
    {
      this.level3 := level3;
    }
  }

  class Level3 {
    static const PRIORITY_LOW: int := 10
    static const PRIORITY_NORMAL: int := 20
    static const PRIORITY_HIGH: int := 30

    /** Priority to the tier of wrappers registered at it, in registration order. */
    var wrappers: map<int, seq<Wrapper>>
    /** Content type to the writer registered for it. */
    var formatWriters: map<string, Writer>
    var defaultContentType: Option<string>

    constructor ()
      ensures wrappers == map[] && formatWriters == map[] && defaultContentType == None
    {
      wrappers := map[];
      formatWriters := map[];
      defaultContentType := None;
    }

    /** The format-writer registry as a value. */
    function Writers(): (t: WriterTable)
      reads this
    {
      WriterTable(formatWriters, defaultContentType)
    }

    method ClearProcessWrappers()
      modifies this
      ensures wrappers == map[] == Build([]) && Ordered(wrappers) == []
      ensures formatWriters == old(formatWriters) && defaultContentType == old(defaultContentType)
    {
      wrappers := map[];
    }

    /**
      Appends `wrapper` to its tier (NORMAL unless a priority is given) and
      binds the wrapper's back-reference to this framework. When the registry
      is `Build(log)` before the call, it is `Build` of `log` with this
      registration appended after it (`BuildSnoc`), so the listing lemmas of
      `PriorityTiers` apply to the registrations made since the last clear.
     */
    method AddProcessorWrapper(wrapper: Wrapper, priority: int := PRIORITY_NORMAL)
      modifies this, wrapper
      ensures wrappers == Append(old(wrappers), priority, wrapper)
      ensures forall log :: old(wrappers) == Build(log) ==>
        wrappers == Build(log + [Registration(priority, wrapper)])
      ensures wrapper.level3 == this
      ensures formatWriters == old(formatWriters) && defaultContentType == old(defaultContentType)
    {
      var tier := if priority in wrappers then wrappers[priority] else [];
      wrappers := wrappers[priority := tier + [wrapper]];
      wrapper.SetLevel3(this);
      forall log | old(wrappers) == Build(log)
        ensures wrappers == Build(log + [Registration(priority, wrapper)])
      {
        BuildSnoc(log, priority, wrapper);
      }
    }

    /** Every tier in ascending priority order, each tier in registration order. */
    method ProcessorWrappers() returns (result: seq<Wrapper>)
      ensures result == Ordered(wrappers)
    {
      result := [];
      var priorities := SortedKeys(wrappers.Keys);
      for i := 0 to |priorities|
        invariant result == Concat(wrappers, priorities[..i])
      {
        assert priorities[..i + 1][..i] == priorities[..i];
        result := result + wrappers[priorities[i]];
      }
      assert priorities[..|priorities|] == priorities;
    }

    /** The first listed wrapper that is an instance of `kind`, or None. */
    method ProcessorWrappersByClass(kind: string) returns (r: Option<Wrapper>)
      ensures r.None? <==> forall w :: w in Ordered(wrappers) ==> kind !in w.kinds
      ensures r.Some? ==>
        exists i :: 0 <= i < |Ordered(wrappers)| && Ordered(wrappers)[i] == r.value && kind in r.value.kinds
                    && forall j :: 0 <= j < i ==> kind !in Ordered(wrappers)[j].kinds
    {
      var all := ProcessorWrappers();
      for i := 0 to |all|
        invariant forall j :: 0 <= j < i ==> kind !in all[j].kinds
      {
        if kind in all[i].kinds {
          return Some(all[i]);
        }
      }
      return None;
    }

    /** Registers `writer` under its content type; the first one becomes the default. */
    method AddFormatWriter(writer: Writer)
      modifies this
      ensures Writers() == old(Writers()).Add(writer)
      ensures wrappers == old(wrappers)
    {
      var contentType := writer.contentType;
      if Unset(defaultContentType) {
        defaultContentType := Some(contentType);
      }
      formatWriters := formatWriters[contentType := writer];
    }

    /** The registered writers, keyed by content type. */
    function FormatWriter(): (r: map<string, Writer>)
      reads this
    {
      formatWriters
    }

    /** The writer for `contentType`, the wildcard read as the default; None when absent. */
    function FormatWriterByContentType(contentType: string): (r: Option<Writer>)
      reads this
      ensures contentType != CONTENT_TYPE_WILDCARD ==> (r.Some? <==> contentType in formatWriters)
      ensures contentType != CONTENT_TYPE_WILDCARD && r.Some? ==> r.value == formatWriters[contentType]
      ensures contentType == CONTENT_TYPE_WILDCARD ==> (r.Some? <==> DefaultKey(defaultContentType) in formatWriters)
      ensures contentType == CONTENT_TYPE_WILDCARD && r.Some? ==> r.value == formatWriters[DefaultKey(defaultContentType)]
    {
      Writers().Lookup(contentType)
    }

    /**
      After a sequence of registry calls on a fresh framework, the map returned
      holds, for each content type, the writer added last for it.
     */
    lemma FormatWriterHoldsLastAdded(ops: seq<WriterOp>)
      requires Writers() == Run(ops)
      ensures forall ct :: ct in FormatWriter() <==> LastAdded(ops, ct).Some?
      ensures forall ct :: ct in FormatWriter() ==> FormatWriter()[ct] == LastAdded(ops, ct).value
    {
      forall ct {
        StoredIsLastAdded(ops, ct);
      }
    }

    method SetDefaultFormatWriter(contentType: string)
      modifies this
      ensures Writers() == old(Writers()).SetDefault(contentType)
      ensures wrappers == old(wrappers)
    {
      defaultContentType := Some(contentType);
    }
  }
}
