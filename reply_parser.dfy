/** `parse_structured_response` (UI.py): recover the JSON object from a model
    reply. A dict is passed through; a string is searched first for a fenced
    ```json block wrapped in `<initial_attempt>` tags, and only when that
    pattern occurs nowhere for the first bare ```json block; whatever is found
    is stripped and handed to `json.loads`, which the model takes as the
    parameter `decode`. */
module ReplyParser {
  import opened Wrappers
  import opened Text
  import opened Values

  const OpenTag: string := "<initial_attempt>"
  const CloseTag: string := "</initial_attempt>"
  const JsonFence: string := "```json"
  const Fence: string := "```"

  /** What the parser is handed: a dict, a str, or any other Python object. */
  datatype Reply = DictReply(fields: map<string, Value>) | TextReply(text: string) | OtherReply

  // ---------------------------------------------------------------------
  // The two regular expressions, stated as what they match

  /** `t[e..]` starts with a closing fence, optional whitespace and the close tag. */
  ghost predicate ClosesAt(t: string, e: int) {
    At(t, e, Fence) && exists z :: AllSpace(t, e + |Fence|, z) && At(t, z, CloseTag)
  }

  /** `<initial_attempt>\s*```json(.*?)```\s*</initial_attempt>` (DOTALL)
      matches at `s` with its group spanning `t[c..e]`. */
  ghost predicate TaggedMatch(t: string, s: int, c: int, e: int) {
    && At(t, s, OpenTag)
    && (exists w :: AllSpace(t, s + |OpenTag|, w) && At(t, w, JsonFence) && c == w + |JsonFence|)
    && c <= e
    && ClosesAt(t, e)
  }

  /** The match `re.search` reports: the leftmost start, and at that start
      the shortest group, since `(.*?)` is lazy. */
  ghost predicate TaggedSearch(t: string, s: int, c: int, e: int) {
    && TaggedMatch(t, s, c, e)
    && (forall s', c', e' :: TaggedMatch(t, s', c', e') ==> s <= s')
    && (forall c', e' :: TaggedMatch(t, s, c', e') ==> e <= e')
  }

  /** `` ```json(.*?)``` `` (DOTALL) matches at `s` with its group ending at `e`. */
  ghost predicate UntaggedMatch(t: string, s: int, e: int) {
    At(t, s, JsonFence) && s + |JsonFence| <= e && At(t, e, Fence)
  }

  ghost predicate UntaggedSearch(t: string, s: int, e: int) {
    && UntaggedMatch(t, s, e)
    && (forall s', e' :: UntaggedMatch(t, s', e') ==> s <= s')
    && (forall e' :: UntaggedMatch(t, s, e') ==> e <= e')
  }

  ghost predicate NoTaggedMatch(t: string) {
    forall s, c, e :: !TaggedMatch(t, s, c, e)
  }

  ghost predicate NoUntaggedMatch(t: string) {
    forall s, e :: !UntaggedMatch(t, s, e)
  }

  // ---------------------------------------------------------------------
  // The searches

  /** The opening part of the tagged pattern matches at `s`. */
  predicate OpensAt(t: string, s: nat) {
    s + |OpenTag| <= |t| && At(t, s, OpenTag) && At(t, SkipSpace(t, s + |OpenTag|), JsonFence)
  }

  /** Where the group starts when the opening part matches at `s`. */
  function GroupStart(t: string, s: nat): (c: nat)
    requires s + |OpenTag| <= |t|
  {
    SkipSpace(t, s + |OpenTag|) + |JsonFence|
  }

  predicate ClosesHere(t: string, e: nat) {
    e + |Fence| <= |t| && At(t, e, Fence) && At(t, SkipSpace(t, e + |Fence|), CloseTag)
  }

  lemma ClosesHereIff(t: string, e: nat)
    ensures ClosesHere(t, e) <==> ClosesAt(t, e)
  {
    if ClosesAt(t, e) {
      var z :| AllSpace(t, e + |Fence|, z) && At(t, z, CloseTag);
      assert t[z] == t[z..z + |CloseTag|][0];
      SpaceRunEnd(t, e + |Fence|, z);
    }
  }

  /** The group of a tagged match starts where the opening part ends: the
      whitespace before ```json is always consumed in full. */
  lemma TaggedMatchIff(t: string, s: nat, c: int, e: int)
    ensures TaggedMatch(t, s, c, e) <==> OpensAt(t, s) && c == GroupStart(t, s) && c <= e && ClosesAt(t, e)
  {
    if TaggedMatch(t, s, c, e) {
      var w :| AllSpace(t, s + |OpenTag|, w) && At(t, w, JsonFence) && c == w + |JsonFence|;
      assert t[w] == t[w..w + |JsonFence|][0];
      SpaceRunEnd(t, s + |OpenTag|, w);
    }
  }

  /** The first position at or after `e` where the tagged pattern can close. */
  function FindTaggedEnd(t: string, e: nat): (r: Option<nat>)
    ensures r.Some? ==> e <= r.value && ClosesAt(t, r.value)
    ensures r.Some? ==> forall x :: e <= x < r.value ==> !ClosesAt(t, x)
    ensures r.None? ==> forall x :: e <= x ==> !ClosesAt(t, x)
    decreases |t| - e
  {
    ClosesHereIff(t, e);
    if e + |Fence| > |t| then None
    else if ClosesHere(t, e) then Some(e)
    else FindTaggedEnd(t, e + 1)
  }

  /** The leftmost tagged match at or after `s`, with its shortest group. */
  function FindTagged(t: string, s: nat): (r: Option<(nat, nat, nat)>)
    ensures r.Some? ==> s <= r.value.0 && TaggedMatch(t, r.value.0, r.value.1, r.value.2)
    ensures r.Some? ==> forall s', c', e' :: s <= s' < r.value.0 ==> !TaggedMatch(t, s', c', e')
    ensures r.Some? ==> forall c', e' :: TaggedMatch(t, r.value.0, c', e') ==> r.value.2 <= e'
    ensures r.None? ==> forall s', c', e' :: s <= s' ==> !TaggedMatch(t, s', c', e')
    decreases |t| - s
  {
    if s + |OpenTag| > |t| then
      assert forall s', c', e' :: s <= s' ==> !TaggedMatch(t, s', c', e');
      None
    else
      var rest := FindTagged(t, s + 1);
      assert forall c', e' :: TaggedMatch(t, s, c', e') <==> OpensAt(t, s) && c' == GroupStart(t, s) && c' <= e' && ClosesAt(t, e') by {
        forall c', e' {
          TaggedMatchIff(t, s, c', e');
        }
      }
      if OpensAt(t, s) then
        var c := GroupStart(t, s);
        match FindTaggedEnd(t, c)
        case Some(e) => Some((s, c, e))
        case None => rest
      else
        rest
  }

  /** The first closing fence at or after `e`. */
  function FindFence(t: string, e: nat): (r: Option<nat>)
    ensures r.Some? ==> e <= r.value && At(t, r.value, Fence)
    ensures r.Some? ==> forall x :: e <= x < r.value ==> !At(t, x, Fence)
    ensures r.None? ==> forall x :: e <= x ==> !At(t, x, Fence)
    decreases |t| - e
  {
    if e + |Fence| > |t| then None
    else if At(t, e, Fence) then Some(e)
    else FindFence(t, e + 1)
  }

  /** The leftmost bare ```json block at or after `s`, with its shortest group. */
  function FindUntagged(t: string, s: nat): (r: Option<(nat, nat)>)
    ensures r.Some? ==> s <= r.value.0 && UntaggedMatch(t, r.value.0, r.value.1)
    ensures r.Some? ==> forall s', e' :: s <= s' < r.value.0 ==> !UntaggedMatch(t, s', e')
    ensures r.Some? ==> forall e' :: UntaggedMatch(t, r.value.0, e') ==> r.value.1 <= e'
    ensures r.None? ==> forall s', e' :: s <= s' ==> !UntaggedMatch(t, s', e')
    decreases |t| - s
  {
    if s + |JsonFence| > |t| then None
    else if At(t, s, JsonFence) then
      match FindFence(t, s + |JsonFence|)
      case Some(e) => Some((s, e))
      case None => FindUntagged(t, s + 1)
    else FindUntagged(t, s + 1)
  }

  // ---------------------------------------------------------------------
  // The parser

  /** `parse_structured_response`. `None` is its `return None` after an
      error report. */
  function ParseStructuredResponse(reply: Reply, decode: string -> Option<Value>): (r: Option<Value>)
    ensures reply.DictReply? ==> r == Some(Obj(reply.fields))
    ensures reply.OtherReply? ==> r == None
  {
    match reply
    case DictReply(fields) => Some(Obj(fields))
    case OtherReply => None
    case TextReply(t) =>
      match FindTagged(t, 0)
      case Some((_, c, e)) => decode(Strip(t[c..e]))
      case None =>
        match FindUntagged(t, 0)
        case Some((s, e)) => decode(Strip(t[s + |JsonFence|..e]))
        case None => None
  }

  /** When the tagged pattern matches, the result is exactly the decoding of
      its stripped group, whatever else the text holds: a decoding failure
      there is final, and the bare-block fallback is not tried. */
  lemma ParseTagged(t: string, decode: string -> Option<Value>, s: int, c: int, e: int)
    requires TaggedSearch(t, s, c, e)
    ensures 0 <= c <= e <= |t|
    ensures ParseStructuredResponse(TextReply(t), decode) == decode(Strip(t[c..e]))
  {
    var r := FindTagged(t, 0);
    assert r.Some?;
    var (s0, c0, e0) := r.value;
    assert s == s0;
    TaggedMatchIff(t, s, c, e);
    TaggedMatchIff(t, s, c0, e0);
    assert c == c0 && e == e0;
  }

  /** Only when the tagged pattern matches nowhere is the first bare ```json
      block decoded; its stripped group decides the result. */
  lemma ParseUntagged(t: string, decode: string -> Option<Value>, s: int, e: int)
    requires NoTaggedMatch(t) && UntaggedSearch(t, s, e)
    ensures 0 <= s + |JsonFence| <= e <= |t|
    ensures ParseStructuredResponse(TextReply(t), decode) == decode(Strip(t[s + |JsonFence|..e]))
  {
    assert FindTagged(t, 0).None?;
    var u := FindUntagged(t, 0);
    assert u.Some?;
    assert u.value.0 == s;
    assert u.value.1 == e;
  }

  /** Text without any ```json block is a failure, never a default object. */
  lemma ParseNoBlock(t: string, decode: string -> Option<Value>)
    requires NoTaggedMatch(t) && NoUntaggedMatch(t)
    ensures ParseStructuredResponse(TextReply(t), decode) == None
  {
  }

  /** `Strip` of a slice is itself a slice of the same text. */
  lemma StripOfSlice(t: string, lo: nat, hi: nat)
    requires lo <= hi <= |t|
    ensures exists i, j :: lo <= i <= j <= hi && Strip(t[lo..hi]) == t[i..j]
  {
    var piece := t[lo..hi];
    var i := SkipSpace(piece, 0);
    var j := SkipSpaceBack(piece, i, |piece|);
    assert Strip(piece) == piece[i..j];
    SliceOfSlice(t, lo, hi, i, j);
    assert lo <= lo + i <= lo + j <= hi && Strip(piece) == t[lo + i..lo + j];
  }

  lemma SliceOfSlice(t: string, lo: nat, hi: nat, i: nat, j: nat)
    requires lo <= hi <= |t| && i <= j <= hi - lo
    ensures t[lo..hi][i..j] == t[lo + i..lo + j]
  {
    var a, b := t[lo..hi][i..j], t[lo + i..lo + j];
    forall k | 0 <= k < |a| ensures a[k] == b[k] {
    }
  }

  /** Every object the parser returns for a text is what the decoder made of
      some piece of that text: nothing is guessed. */
  lemma ParseResultIsDecoded(t: string, decode: string -> Option<Value>)
    requires ParseStructuredResponse(TextReply(t), decode).Some?
    ensures exists i, j :: 0 <= i <= j <= |t| && decode(t[i..j]) == ParseStructuredResponse(TextReply(t), decode)
  {
    match FindTagged(t, 0)
    case Some((_, c, e)) =>
      StripOfSlice(t, c, e);
    case None =>
      var u := FindUntagged(t, 0);
      StripOfSlice(t, u.value.0 + |JsonFence|, u.value.1);
  }

  /** A text that contains no ```json at all parses to failure. */
  lemma ParseWithoutFence(t: string, decode: string -> Option<Value>)
    requires forall i :: !At(t, i, JsonFence)
    ensures ParseStructuredResponse(TextReply(t), decode) == None
  {
    assert NoTaggedMatch(t);
    ParseNoBlock(t, decode);
  }

  /** A refusal reply parses to failure. */
  lemma ParseRefusal(decode: string -> Option<Value>)
    ensures ParseStructuredResponse(TextReply("Sorry, I cannot help."), decode) == None
  {
    var t := "Sorry, I cannot help.";
    forall i ensures !At(t, i, JsonFence) {
      if At(t, i, JsonFence) {
        AtHead(t, i, JsonFence);
        assert false;
      }
    }
    ParseWithoutFence(t, decode);
  }

  lemma AtHead(t: string, i: int, w: string)
    requires At(t, i, w) && w != []
    ensures t[i] == w[0]
  {
    assert t[i] == t[i..i + |w|][0];
  }

  lemma SliceIndex(t: string, i: nat, j: nat, k: nat)
    requires i <= k < j <= |t|
    ensures t[i..j][k - i] == t[k]
  {
  }

  // Facts about `y` carried over to `x + y`.

  lemma SlicePrepend(x: string, y: string, i: nat, j: nat)
    requires i <= j <= |y|
    ensures (x + y)[|x| + i..|x| + j] == y[i..j]
  {
  }

  lemma AtPrepend(x: string, y: string, i: int, w: string)
    requires At(y, i, w)
    ensures At(x + y, |x| + i, w)
  {
    SlicePrepend(x, y, i, i + |w|);
  }

  lemma SpacePrepend(x: string, y: string, i: int, j: int)
    requires AllSpace(y, i, j)
    ensures AllSpace(x + y, |x| + i, |x| + j)
  {
    forall k | |x| + i <= k < |x| + j ensures IsSpace((x + y)[k]) {
      assert (x + y)[k] == y[k - |x|];
    }
  }

  lemma SpaceAppend(x: string, y: string, i: int, j: int)
    requires AllSpace(x, i, j)
    ensures AllSpace(x + y, i, j)
  {
    forall k | i <= k < j ensures IsSpace((x + y)[k]) {
      assert (x + y)[k] == x[k];
    }
  }

  lemma ClosesPrepend(x: string, y: string, e: int)
    requires ClosesAt(y, e)
    ensures ClosesAt(x + y, |x| + e)
  {
    var z :| AllSpace(y, e + |Fence|, z) && At(y, z, CloseTag);
    AtPrepend(x, y, e, Fence);
    SpacePrepend(x, y, e + |Fence|, z);
    AtPrepend(x, y, z, CloseTag);
  }

  lemma TaggedPrepend(x: string, y: string, s: int, c: int, e: int)
    requires TaggedMatch(y, s, c, e)
    ensures TaggedMatch(x + y, |x| + s, |x| + c, |x| + e)
  {
    var w :| AllSpace(y, s + |OpenTag|, w) && At(y, w, JsonFence) && c == w + |JsonFence|;
    AtPrepend(x, y, s, OpenTag);
    SpacePrepend(x, y, s + |OpenTag|, w);
    AtPrepend(x, y, w, JsonFence);
    ClosesPrepend(x, y, e);
  }

  /** The reply shape the structuring prompt asks for, with prose around it. */
  function Wrapped(pre: string, ws1: string, payload: string, ws2: string, post: string): (t: string) {
    pre + (OpenTag + (ws1 + (JsonFence + (payload + (Fence + (ws2 + (CloseTag + post)))))))
  }

  /** Where the payload of `Wrapped` starts. */
  function PayloadStart(pre: string, ws1: string): (c: nat) {
    |pre| + |OpenTag| + |ws1| + |JsonFence|
  }

  lemma WrappedCloses(payload: string, ws2: string, post: string)
    requires AllSpace(ws2, 0, |ws2|)
    ensures ClosesAt(payload + (Fence + (ws2 + (CloseTag + post))), |payload|)
  {
    var r7 := CloseTag + post;
    var r6 := ws2 + r7;
    var r5 := Fence + r6;
    assert At(r7, 0, CloseTag);
    AtPrepend(ws2, r7, 0, CloseTag);
    SpaceAppend(ws2, r7, 0, |ws2|);
    assert At(r5, 0, Fence);
    SpacePrepend(Fence, r6, 0, |ws2|);
    AtPrepend(Fence, r6, |ws2|, CloseTag);
    assert ClosesAt(r5, 0);
    ClosesPrepend(payload, r5, 0);
  }

  /** Whitespace, ```json and a closable group: the fence, the group and the
      closing part sit where they were put. */
  lemma FencedLayout(ws1: string, r4: string, plen: nat)
    requires AllSpace(ws1, 0, |ws1|) && plen <= |r4| && ClosesAt(r4, plen)
    ensures var r2 := ws1 + (JsonFence + r4);
            var c := |ws1| + |JsonFence|;
            && AllSpace(r2, 0, |ws1|) && At(r2, |ws1|, JsonFence)
            && ClosesAt(r2, c + plen) && r2[c..c + plen] == r4[..plen]
  {
    var r3 := JsonFence + r4;
    ClosesPrepend(JsonFence, r4, plen);
    SlicePrepend(JsonFence, r4, 0, plen);
    assert At(r3, 0, JsonFence);
    ClosesPrepend(ws1, r3, |JsonFence| + plen);
    SlicePrepend(ws1, r3, |JsonFence|, |JsonFence| + plen);
    AtPrepend(ws1, r3, 0, JsonFence);
    SpaceAppend(ws1, r3, 0, |ws1|);
  }

  /** The tagged block alone: the match starts at 0 and its group is the payload. */
  lemma BlockLayout(ws1: string, r4: string, plen: nat)
    requires AllSpace(ws1, 0, |ws1|) && plen <= |r4| && ClosesAt(r4, plen)
    ensures var c := |OpenTag| + |ws1| + |JsonFence|;
            var r1 := OpenTag + (ws1 + (JsonFence + r4));
            TaggedMatch(r1, 0, c, c + plen) && r1[c..c + plen] == r4[..plen]
  {
    var r2 := ws1 + (JsonFence + r4);
    var r1 := OpenTag + r2;
    FencedLayout(ws1, r4, plen);
    ClosesPrepend(OpenTag, r2, |ws1| + |JsonFence| + plen);
    SlicePrepend(OpenTag, r2, |ws1| + |JsonFence|, |ws1| + |JsonFence| + plen);
    AtPrepend(OpenTag, r2, |ws1|, JsonFence);
    SpacePrepend(OpenTag, r2, 0, |ws1|);
    assert At(r1, 0, OpenTag);
  }

  lemma WrappedLayout(pre: string, ws1: string, payload: string, ws2: string, post: string)
    requires AllSpace(ws1, 0, |ws1|) && AllSpace(ws2, 0, |ws2|)
    ensures var t := Wrapped(pre, ws1, payload, ws2, post);
            var c := PayloadStart(pre, ws1);
            && TaggedMatch(t, |pre|, c, c + |payload|)
            && t[c..c + |payload|] == payload
            && t[..|pre|] == pre
  {
    var r4 := payload + (Fence + (ws2 + (CloseTag + post)));
    var r1 := OpenTag + (ws1 + (JsonFence + r4));
    var c0 := |OpenTag| + |ws1| + |JsonFence|;
    assert Wrapped(pre, ws1, payload, ws2, post) == pre + r1;
    assert PayloadStart(pre, ws1) == |pre| + c0;
    WrappedCloses(payload, ws2, post);
    BlockLayout(ws1, r4, |payload|);
    assert r4[..|payload|] == payload;
    TaggedPrepend(pre, r1, 0, c0, c0 + |payload|);
    SlicePrepend(pre, r1, c0, c0 + |payload|);
    assert (pre + r1)[..|pre|] == pre;
  }

  /** Inside a prefix, a word occurs in the text where it occurs in the prefix. */
  lemma AtPrefix(t: string, pre: string, i: nat, w: string)
    requires |pre| <= |t| && t[..|pre|] == pre && i + |w| <= |pre|
    ensures At(t, i, w) <==> At(pre, i, w)
  {
    assert pre[i..i + |w|] == t[i..i + |w|];
  }

  /** A word does not occur where one of its characters differs. */
  lemma NotAtWhere(t: string, i: int, w: string, k: nat)
    requires k < |w| && 0 <= i + k < |t| && t[i + k] != w[k]
    ensures !At(t, i, w)
  {
    if 0 <= i && i + |w| <= |t| {
      assert t[i..i + |w|][k] == t[i + k];
    }
  }

  lemma OpenTagOneBracket(j: int)
    requires 0 < j < |OpenTag|
    ensures OpenTag[j] != '<'
  {
  }

  /** In a text laid out as `Wrapped`, the match `re.search` reports is the
      one around the payload. */
  lemma WrappedSearch(t: string, pre: string, c: nat, payload: string)
    requires TaggedMatch(t, |pre|, c, c + |payload|) && t[c..c + |payload|] == payload && t[..|pre|] == pre
    requires forall k :: !At(pre, k, OpenTag)
    requires forall k :: 0 <= k < |payload| ==> payload[k] != '`'
    ensures TaggedSearch(t, |pre|, c, c + |payload|)
  {
    var o, e := |pre|, c + |payload|;
    forall s' | 0 <= s' < o ensures !At(t, s', OpenTag) {
      if s' + |OpenTag| <= o {
        AtPrefix(t, pre, s', OpenTag);
      } else {
        // A tag starting here would straddle the real one, whose `<` is
        // the only `<` in OpenTag.
        AtHead(t, o, OpenTag);
        OpenTagOneBracket(o - s');
        NotAtWhere(t, s', OpenTag, o - s');
      }
    }
    forall x | c <= x < e ensures !At(t, x, Fence) {
      SliceIndex(t, c, e, x);
      NotAtWhere(t, x, Fence, 0);
    }
    forall c', e' | TaggedMatch(t, o, c', e') ensures e <= e' {
      TaggedMatchIff(t, o, c, e);
      TaggedMatchIff(t, o, c', e');
    }
  }

  /** The reply shape the structuring prompt asks for parses to its stripped
      payload, whatever prose follows it and whatever prose precedes it, as
      long as that prose holds no `<initial_attempt>` of its own and the
      payload holds no backquote. */
  lemma ParseWrappedPayload(pre: string, ws1: string, payload: string, ws2: string, post: string,
                            decode: string -> Option<Value>)
    requires forall k :: !At(pre, k, OpenTag)
    requires AllSpace(ws1, 0, |ws1|) && AllSpace(ws2, 0, |ws2|)
    requires forall k :: 0 <= k < |payload| ==> payload[k] != '`'
    ensures ParseStructuredResponse(TextReply(Wrapped(pre, ws1, payload, ws2, post)), decode)
         == decode(Strip(payload))
  {
    var t := Wrapped(pre, ws1, payload, ws2, post);
    var c := PayloadStart(pre, ws1);
    WrappedLayout(pre, ws1, payload, ws2, post);
    WrappedSearch(t, pre, c, payload);
    ParseTagged(t, decode, |pre|, c, c + |payload|);
  }

  /** A reply whose prose itself starts with `<initial_attempt>` and ```json
      (an earlier draft, say) is matched from that stray tag: the group
      `re.search` reports starts inside the prose, ahead of the real payload,
      and runs to a closing fence, so what is decoded is not the payload
      alone. */
  lemma ParseStrayOpenTag(draft: string, ws1: string, payload: string, ws2: string, post: string,
                          decode: string -> Option<Value>)
    requires AllSpace(ws1, 0, |ws1|) && AllSpace(ws2, 0, |ws2|)
    ensures var pre := OpenTag + JsonFence + draft;
            var t := Wrapped(pre, ws1, payload, ws2, post);
            exists e :: |OpenTag| + |JsonFence| <= e <= |t|
              && ClosesAt(t, e)
              && ParseStructuredResponse(TextReply(t), decode) == decode(Strip(t[|OpenTag| + |JsonFence|..e]))
  {
    var pre := OpenTag + JsonFence + draft;
    var t := Wrapped(pre, ws1, payload, ws2, post);
    var c := PayloadStart(pre, ws1);
    var c0 := |OpenTag| + |JsonFence|;
    WrappedLayout(pre, ws1, payload, ws2, post);
    assert t[..c0] == OpenTag + JsonFence by {
      assert t[..c0] == pre[..c0];
    }
    assert At(t, 0, OpenTag) by {
      assert t[..|OpenTag|] == t[..c0][..|OpenTag|];
    }
    assert At(t, |OpenTag|, JsonFence) by {
      assert t[|OpenTag|..c0] == t[..c0][|OpenTag|..];
    }
    assert AllSpace(t, |OpenTag|, |OpenTag|);
    assert TaggedMatch(t, 0, c0, c + |payload|);
    var r := FindTagged(t, 0);
    assert r.Some?;
    var (s0, c1, e1) := r.value;
    assert s0 == 0;
    TaggedMatchIff(t, 0, c0, c + |payload|);
    TaggedMatchIff(t, 0, c1, e1);
  }
}
