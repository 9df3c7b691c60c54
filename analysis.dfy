/**
 * The pure parts of the analysis library: taking a `data:` URL apart into
 * its media type and its base64 payload, the shape gate on a model reply,
 * and the choice of the raw reply text from an API response.
 */
module Analysis {

  import opened Wrappers
  import opened Strings
  import opened JsValues

  const DataPrefix := "data:"
  const Base64Marker := ";base64,"
  const DefaultMimeType := "image/png"

  // ---------------------------------------------------------------------------
  // stripBase64Prefix: dataUrl.replace(/^data:[^;]+;base64,/, '')
  // ---------------------------------------------------------------------------

  /** A media type the pattern `[^;]+` accepts: at least one character, none of them a semicolon. */
  predicate IsStrippableMime(m: string)
  {
    m != [] && ';' !in m
  }

  predicate IsSemicolon(c: char)
  {
    c == ';'
  }

  /**
   * Removes a leading `data:<m>;base64,`; the pattern is anchored, so a string
   * that does not begin with such a prefix comes back unchanged.
   */
  function StripBase64Prefix(dataUrl: string): (r: string)
    ensures r != dataUrl ==> exists m :: IsStrippableMime(m) && dataUrl == DataPrefix + m + Base64Marker + r
  {
    if !StartsWith(dataUrl, DataPrefix) then dataUrl
    else
      match FirstIndex(dataUrl, IsSemicolon, 5)
      case None => dataUrl
      case Some(j) =>
        if j > 5 && StartsWith(dataUrl[j..], Base64Marker) then
          var m := dataUrl[5..j];
          assert ';' !in m by {
            forall i | 0 <= i < |m| ensures m[i] != ';' {
              assert m[i] == dataUrl[5 + i];
            }
          }
          assert dataUrl == DataPrefix + m + Base64Marker + dataUrl[j + 8..] by {
            assert dataUrl == dataUrl[..5] + dataUrl[5..j] + dataUrl[j..j + 8] + dataUrl[j + 8..];
          }
          dataUrl[j + 8..]
        else dataUrl
  }

  /** For a media type without semicolons, exactly the prefix is removed. */
  lemma StripRemovesPrefix(m: string, payload: string)
    requires IsStrippableMime(m)
    ensures StripBase64Prefix(DataPrefix + m + Base64Marker + payload) == payload
  {
    var s := DataPrefix + m + Base64Marker + payload;
    var j := 5 + |m|;
    assert s[..5] == DataPrefix;
    assert s[j] == ';';
    assert forall k :: 5 <= k < j ==> s[k] == m[k - 5];
    var found := FirstIndex(s, IsSemicolon, 5);
    assert found == Some(j);
    assert s[j..][..8] == Base64Marker;
    assert s[j + 8..] == payload;
  }

  // ---------------------------------------------------------------------------
  // extractMimeType: dataUrl.match(/^data:(.+);base64,/), group 1 or 'image/png'
  // ---------------------------------------------------------------------------

  /**
   * The pattern `^data:(.+);base64,` matches `s` with its group ending at
   * index `k`: the group `s[5..k]` is non-empty, holds no line terminator,
   * and `;base64,` follows it.
   */
  ghost predicate GroupEndsAt(s: string, k: int)
  {
    && 6 <= k && k + 8 <= |s|
    && StartsWith(s, DataPrefix)
    && s[k..k + 8] == Base64Marker
    && forall i :: 5 <= i < k ==> !IsLineTerminator(s[i])
  }

  /**
   * Backtracking of the greedy `.+`: the largest match end at or below `k`,
   * found by trying `k`, `k - 1`, ... down to the shortest group.
   */
  function LastGroupEnd(s: string, k: nat): (r: Option<nat>)
    requires StartsWith(s, DataPrefix) && k <= |s|
    requires forall i :: 5 <= i < k ==> !IsLineTerminator(s[i])
    ensures r.Some? ==> r.value <= k && GroupEndsAt(s, r.value)
    ensures r.Some? ==> forall k' :: r.value < k' <= k ==> !GroupEndsAt(s, k')
    ensures r.None? ==> forall k' :: k' <= k ==> !GroupEndsAt(s, k')
    decreases k
  {
    if k < 6 then None
    else if k + 8 <= |s| && s[k..k + 8] == Base64Marker then Some(k)
    else LastGroupEnd(s, k - 1)
  }

  /** Where the group of the greedy match ends, if the pattern matches at all. */
  function GroupEnd(s: string): (r: Option<nat>)
    ensures r.Some? ==> GroupEndsAt(s, r.value) && forall k :: GroupEndsAt(s, k) ==> k <= r.value
    ensures r.None? ==> forall k :: !GroupEndsAt(s, k)
  {
    if !StartsWith(s, DataPrefix) then None
    else
      // `.` runs at most up to the first line terminator
      match FirstIndex(s, IsLineTerminator, 5)
      case Some(stop) => LastGroupEnd(s, stop)
      case None => LastGroupEnd(s, |s|)
  }

  /**
   * The group of the greedy match, or `image/png` when the pattern does not
   * match. The group may contain semicolons, unlike the media type that
   * `StripBase64Prefix` recognises.
   */
  function ExtractMimeType(dataUrl: string): (r: string)
    ensures (forall k :: !GroupEndsAt(dataUrl, k)) ==> r == DefaultMimeType
    ensures forall k :: GroupEndsAt(dataUrl, k) && (forall k' :: GroupEndsAt(dataUrl, k') ==> k' <= k) ==>
      r == dataUrl[5..k]
  {
    match GroupEnd(dataUrl)
    case Some(k) => dataUrl[5..k]
    case None => DefaultMimeType
  }

  /** A media type without line terminators is recovered when the payload has no semicolon. */
  lemma ExtractRecoversMime(m: string, payload: string)
    requires m != [] && forall i :: 0 <= i < |m| ==> !IsLineTerminator(m[i])
    requires ';' !in payload
    ensures ExtractMimeType(DataPrefix + m + Base64Marker + payload) == m
  {
    var s := DataPrefix + m + Base64Marker + payload;
    var j := 5 + |m|;
    assert s[..5] == DataPrefix;
    assert s[j..j + 8] == Base64Marker;
    assert forall i :: 5 <= i < j ==> s[i] == m[i - 5];
    assert GroupEndsAt(s, j);
    assert forall k :: j < k < |s| ==> s[k] != ';' by {
      forall k | j < k < |s| ensures s[k] != ';' {
        if k < j + 8 {
          assert s[k] == Base64Marker[k - j];
        } else {
          assert s[k] == payload[k - j - 8];
        }
      }
    }
    forall k | GroupEndsAt(s, k) ensures k <= j {
      assert s[k] == s[k..k + 8][0];
    }
    assert s[5..j] == m;
  }

  /**
   * The stripper looks for `;base64,` only at the first semicolon: when the
   * text after it does not continue with `base64,`, the URL stays whole.
   */
  lemma StripStopsAtFirstSemicolon(m: string, rest: string)
    requires IsStrippableMime(m) && !StartsWith(rest, "base64,")
    ensures StripBase64Prefix(DataPrefix + m + ";" + rest) == DataPrefix + m + ";" + rest
  {
    var s := DataPrefix + m + ";" + rest;
    var j := 5 + |m|;
    assert s[..5] == DataPrefix;
    assert forall k :: 5 <= k < j ==> s[k] == m[k - 5];
    assert s[j] == ';';
    assert FirstIndex(s, IsSemicolon, 5) == Some(j);
    assert s[j..][1..] == rest;
  }

  lemma Regroup(m: string, param: string, payload: string)
    ensures DataPrefix + (m + ";" + param) + Base64Marker + payload == DataPrefix + m + ";" + (param + Base64Marker + payload)
  {
  }

  lemma ParameterIsNotMarker(param: string, payload: string)
    requires !StartsWith(param, "base64,")
    ensures !StartsWith(param + Base64Marker + payload, "base64,")
  {
    var rest := param + Base64Marker + payload;
    if |param| >= 7 {
      assert rest[..7] == param[..7];
    } else {
      assert rest[|param|] == ';';
    }
  }

  /**
   * The two parsers disagree on a media type with a parameter, such as
   * `text/plain;charset=utf-8`: the extractor reports the type with its
   * parameter, while the stripper, which looks for `;base64,` only at the
   * first semicolon, leaves the URL whole.
   */
  lemma ParameterisedMimeDisagreement(m: string, param: string, payload: string)
    requires IsStrippableMime(m) && forall i :: 0 <= i < |m| ==> !IsLineTerminator(m[i])
    requires forall i :: 0 <= i < |param| ==> !IsLineTerminator(param[i])
    requires !StartsWith(param, "base64,") && ';' !in payload
    ensures ExtractMimeType(DataPrefix + (m + ";" + param) + Base64Marker + payload) == m + ";" + param
    ensures StripBase64Prefix(DataPrefix + (m + ";" + param) + Base64Marker + payload)
         == DataPrefix + (m + ";" + param) + Base64Marker + payload
  {
    var full := m + ";" + param;
    assert forall i :: 0 <= i < |full| ==> !IsLineTerminator(full[i]) by {
      forall i | 0 <= i < |full| ensures !IsLineTerminator(full[i]) {
        if i < |m| { assert full[i] == m[i]; }
        else if i > |m| { assert full[i] == param[i - |m| - 1]; }
      }
    }
    ExtractRecoversMime(full, payload);
    ParameterIsNotMarker(param, payload);
    StripStopsAtFirstSemicolon(m, param + Base64Marker + payload);
    Regroup(m, param, payload);
  }

  // ---------------------------------------------------------------------------
  // parseClaudeResponse
  // ---------------------------------------------------------------------------

  /** `parsed?.analysis?.parsedMessages` is truthy (an empty array passes: it is truthy). */
  predicate HasParsedMessages(v: Value)
  {
    Truthy(Get(Get(v, "analysis"), "parsedMessages"))
  }

  /**
   * The shape gate on a model reply. `parse` is `JSON.parse` (None where it
   * throws, which the `catch` turns into null) and `stringify` is
   * `JSON.stringify`. A string is parsed and gated; an object is gated as it
   * is and then once more after a stringify/parse round; anything else,
   * and every falsy payload, gives null.
   */
  function ParseClaudeResponse(payload: Value, parse: string -> Option<Value>, stringify: Value -> string): (r: Option<Value>)
    ensures r.Some? ==> HasParsedMessages(r.value)
    ensures !Truthy(payload) ==> r.None?
    ensures payload.Str? && Truthy(payload) ==>
      r == (if parse(payload.s).Some? && HasParsedMessages(parse(payload.s).value) then parse(payload.s) else None)
    ensures Truthy(payload) && IsObjectType(payload) && HasParsedMessages(payload) ==> r == Some(payload)
    ensures Truthy(payload) && IsObjectType(payload) && !HasParsedMessages(payload) ==>
      var fallback := parse(stringify(payload));
      r == (if fallback.Some? && HasParsedMessages(fallback.value) then fallback else None)
    ensures !payload.Str? && !IsObjectType(payload) ==> r.None?
  {
    if !Truthy(payload) then None
    else if payload.Str? then
      match parse(payload.s)
      case None => None
      case Some(parsed) => if HasParsedMessages(parsed) then Some(parsed) else None
    else if IsObjectType(payload) then
      if HasParsedMessages(payload) then Some(payload)
      else
        match parse(stringify(payload))
        case None => None
        case Some(fallback) => if HasParsedMessages(fallback) then Some(fallback) else None
    else None
  }

  /**
   * When `JSON.parse(JSON.stringify(v))` gives `v` back, an object payload is
   * accepted exactly when it passes the gate itself: the fallback round adds nothing.
   */
  lemma ObjectFallbackAddsNothing(payload: Value, parse: string -> Option<Value>, stringify: Value -> string)
    requires payload.Arr? || payload.Obj?
    requires parse(stringify(payload)) == Some(payload)
    ensures ParseClaudeResponse(payload, parse, stringify) == (if HasParsedMessages(payload) then Some(payload) else None)
  {
  }

  // ---------------------------------------------------------------------------
  // Choice of rawResponse in callClaude
  // ---------------------------------------------------------------------------

  /** `Array.isArray(data?.content) ? data.content : []`. */
  function ContentBlocks(data: Value): seq<Value>
  {
    var content := Get(data, "content");
    if content.Arr? then content.items else []
  }

  /** `item?.type === 'text'`. */
  predicate IsTextBlock(item: Value)
  {
    Get(item, "type") == Str("text")
  }

  /** Block `i` is the first text block, the one `content.find` returns. */
  ghost predicate IsFirstTextBlock(blocks: seq<Value>, i: int)
  {
    0 <= i < |blocks| && IsTextBlock(blocks[i]) && forall j :: 0 <= j < i ==> !IsTextBlock(blocks[j])
  }

  /** `typeof textBlock?.text === 'string' ? textBlock.text.trim() : ''`. */
  function TextChunk(block: Value): string
  {
    var text := Get(block, "text");
    if text.Str? then Trim(text.s) else ""
  }

  /**
   * The raw reply: the trimmed text of the first text block when that is a
   * non-empty string, otherwise the whole response serialised. Later text
   * blocks are never looked at.
   */
  function RawResponse(data: Value, stringify: Value -> string): (r: string)
    ensures (forall i :: 0 <= i < |ContentBlocks(data)| ==> !IsTextBlock(ContentBlocks(data)[i])) ==> r == stringify(data)
    ensures forall i :: IsFirstTextBlock(ContentBlocks(data), i) ==>
      r == (if TextChunk(ContentBlocks(data)[i]) != "" then TextChunk(ContentBlocks(data)[i]) else stringify(data))
    ensures !Get(data, "content").Arr? ==> r == stringify(data)
  {
    var blocks := ContentBlocks(data);
    var found := FirstIndex(blocks, IsTextBlock, 0);
    FirstTextBlockIsFound(blocks, found);
    var chunk := if found.Some? then TextChunk(blocks[found.value]) else "";
    if chunk != "" then chunk else stringify(data)
  }

  /** The search finds the first text block, and only it. */
  lemma FirstTextBlockIsFound(blocks: seq<Value>, found: Option<nat>)
    requires found == FirstIndex(blocks, IsTextBlock, 0)
    ensures forall i :: IsFirstTextBlock(blocks, i) ==> found == Some(i)
  {
    forall i | IsFirstTextBlock(blocks, i) ensures found == Some(i) {
      assert found.Some?;
      assert !(found.value < i);
      assert !(found.value > i);
    }
  }

  /** A reply taken from a text block has no surrounding whitespace. */
  lemma RawResponseFromTextIsTrimmed(data: Value, stringify: Value -> string)
    requires RawResponse(data, stringify) != stringify(data)
    ensures RawResponse(data, stringify) != []
    ensures !IsJsWhitespace(RawResponse(data, stringify)[0])
    ensures !IsJsWhitespace(RawResponse(data, stringify)[|RawResponse(data, stringify)| - 1])
  {
  }
}
