/**
 The three tiers of llm/json_extract.py: parse the text, parse what is inside a markdown fence, and
 parse the first balanced block.

 `parse` stands for the JSON library, `fences` for the regular expression that strips a fence, and
 `strip` for Python's `strip()`.
 */
module JsonExtract {
  import opened Options
  import opened JsonBraces

  /** A parsed value, as far as its kind matters. */
  datatype Json = Dict(id: int) | List(id: int) | Scalar(id: int)

  datatype Tools = Tools(parse: string -> Option<Json>, fences: string -> string, strip: string -> string)

  // ---------- The specification ----------

  /** The slice that the bracket scanner returns. */
  ghost function FirstBlock(text: string, open: char, close: char): Option<string> {
    if exists slice :: IsFirstBlock(text, open, close, slice) then
      var slice :| IsFirstBlock(text, open, close, slice);
      Some(slice)
    else None
  }

  lemma {:induction false} ScanIsFirstBlock(text: string, open: char, close: char, r: Option<string>)
    requires ScanResult(text, open, close, r)
    ensures r == FirstBlock(text, open, close)
  {
    if r.Some? {
      var slice := FirstBlock(text, open, close).value;
      FirstBlockIsUnique(text, open, close, r.value, slice);
    }
  }

  ghost function ParseBlock(text: string, open: char, close: char, tools: Tools): Option<Json> {
    match FirstBlock(text, open, close)
    case None => None
    case Some(slice) => tools.parse(slice)
  }

  /** The first two tiers, on a stripped text. */
  function ParseWhole(text: string, tools: Tools): Option<Json> {
    if tools.parse(text).Some? then tools.parse(text)
    else if tools.fences(text) != text then tools.parse(tools.strip(tools.fences(text)))
    else None
  }

  ghost function ExtractAny(text: string, tools: Tools): Option<Json> {
    var t := tools.strip(text);
    if ParseWhole(t, tools).Some? then ParseWhole(t, tools)
    else if ParseBlock(t, '{', '}', tools).Some? then ParseBlock(t, '{', '}', tools)
    else ParseBlock(t, '[', ']', tools)
  }

  ghost function ExtractList(text: string, tools: Tools): Option<Json> {
    var v := ExtractAny(text, tools);
    if v.Some? && v.value.List? then v else None
  }

  ghost function ExtractDict(text: string, tools: Tools): Option<Json> {
    var v := ExtractAny(text, tools);
    if v.Some? && v.value.Dict? then v else None
  }

  // ---------- The code ----------

  method ExtractJsonAny(text: string, tools: Tools) returns (r: Option<Json>)
    ensures r == ExtractAny(text, tools)
  {
    var t := tools.strip(text);
    r := tools.parse(t);
    if r.Some? {
      return;
    }
    var fenced := tools.fences(t);
    if fenced != t {
      r := tools.parse(tools.strip(fenced));
      if r.Some? {
        return;
      }
    }
    var block := FindBalancedBraces(t, '{', '}');
    ScanIsFirstBlock(t, '{', '}', block);
    if block.Some? {
      r := tools.parse(block.value);
      if r.Some? {
        return;
      }
    }
    block := FindBalancedBraces(t, '[', ']');
    ScanIsFirstBlock(t, '[', ']', block);
    r := if block.Some? then tools.parse(block.value) else None;
  }

  method ExtractJsonList(text: string, tools: Tools) returns (r: Option<Json>)
    ensures r == ExtractList(text, tools)
  {
    r := ExtractJsonAny(text, tools);
    if r.Some? && !r.value.List? {
      r := None;
    }
  }

  method ExtractJsonDict(text: string, tools: Tools) returns (r: Option<Json>)
    ensures r == ExtractDict(text, tools)
  {
    r := ExtractJsonAny(text, tools);
    if r.Some? && !r.value.Dict? {
      r := None;
    }
  }

  // ---------- What comes back ----------

  /** What starts with a brace can only be read as an object, and what starts with a bracket as a list. */
  ghost predicate ReadsJson(parse: string -> Option<Json>) {
    forall s :: parse(s).Some? && s != [] ==>
      (s[0] == '{' ==> parse(s).value.Dict?) && (s[0] == '[' ==> parse(s).value.List?)
  }

  lemma {:induction false} PrintedIsFirstBlock(noise: string, body: Items, suffix: string, open: char, close: char)
    requires open != close && open !in noise && WellFormedAll(body, open, close)
    ensures FirstBlock(noise + Print(Block(body), open, close) + suffix, open, close) ==
            Some(Print(Block(body), open, close))
  {
    var text := noise + Print(Block(body), open, close) + suffix;
    var r := FirstBlock(text, open, close);
    ScanRecoversPrintedTree(noise, body, suffix, open, close, r);
  }

  /** An object between other text comes back. */
  lemma {:induction false} ObjectComesBack(noise: string, body: Items, suffix: string, text: string, tools: Tools)
    requires '{' !in noise && WellFormedAll(body, '{', '}')
    requires tools.strip(text) == noise + Print(Block(body), '{', '}') + suffix
    requires ParseWhole(tools.strip(text), tools) == None && tools.parse(Print(Block(body), '{', '}')).Some?
    ensures ExtractAny(text, tools) == tools.parse(Print(Block(body), '{', '}'))
  {
    PrintedIsFirstBlock(noise, body, suffix, '{', '}');
  }

  /**
   A list between other text comes back exactly when the text has no balanced object, or its first one
   cannot be parsed.  Otherwise that object is the result, and asking for a list fails.
   */
  lemma {:induction false} ListComesBackIff(noise: string, body: Items, suffix: string, text: string, tools: Tools)
    requires ReadsJson(tools.parse) && '[' !in noise && WellFormedAll(body, '[', ']')
    requires tools.strip(text) == noise + Print(Block(body), '[', ']') + suffix
    requires ParseWhole(tools.strip(text), tools) == None && tools.parse(Print(Block(body), '[', ']')).Some?
    ensures ExtractAny(text, tools) == tools.parse(Print(Block(body), '[', ']')) <==>
            ParseBlock(tools.strip(text), '{', '}', tools) == None
    ensures ExtractList(text, tools) == None <==> ParseBlock(tools.strip(text), '{', '}', tools).Some?
  {
    PrintedIsFirstBlock(noise, body, suffix, '[', ']');
    var t := tools.strip(text);
    if ParseBlock(t, '{', '}', tools).Some? {
      assert IsFirstBlock(t, '{', '}', FirstBlock(t, '{', '}').value);
    }
  }

  /** So a list of objects that does not stand alone is lost: its first object comes back in its place. */
  lemma {:induction false} ListOfObjectsIsLost(noise: string, body: Items, suffix: string, text: string, tools: Tools)
    requires ReadsJson(tools.parse) && '{' !in noise && WellFormedAll(body, '{', '}')
    requires tools.strip(text) == noise + "[" + Print(Block(body), '{', '}') + suffix
    requires ParseWhole(tools.strip(text), tools) == None && tools.parse(Print(Block(body), '{', '}')).Some?
    ensures ExtractList(text, tools) == None
    ensures ExtractDict(text, tools) == tools.parse(Print(Block(body), '{', '}'))
  {
    ObjectComesBack(noise + "[", body, suffix, text, tools);
    assert Print(Block(body), '{', '}')[0] == '{';
  }

  /** At an input: the text `Ok: [{}]`, for any library that reads `{}` and not the whole text. */
  lemma {:induction false} EmptyObjectInListIsLost(tools: Tools)
    requires ReadsJson(tools.parse) && tools.parse("{}").Some?
    requires tools.strip("Ok: [{}]") == "Ok: [{}]" == tools.fences("Ok: [{}]") && tools.parse("Ok: [{}]") == None
    ensures ExtractList("Ok: [{}]", tools) == None && ExtractDict("Ok: [{}]", tools) == tools.parse("{}")
  {
    assert Print(Block(Nil), '{', '}') == "{}";
    assert "Ok: " + "[" + "{}" + "]" == "Ok: [{}]";
    ListOfObjectsIsLost("Ok: ", Nil, "]", "Ok: [{}]", tools);
  }

  // ---------- Which tier decides ----------

  /** The tiers in order: the whole text, what is in a fence, the first object, the first list. */
  lemma {:induction false} FirstTierDecides(text: string, tools: Tools)
    ensures var t, r := tools.strip(text), ExtractAny(text, tools);
            var fenced, inside := tools.fences(t) != t, tools.parse(tools.strip(tools.fences(t)));
            && (tools.parse(t).Some? ==> r == tools.parse(t))
            && (tools.parse(t) == None && fenced && inside.Some? ==> r == inside)
            && (tools.parse(t) == None && (!fenced || inside == None) && ParseBlock(t, '{', '}', tools).Some? ==>
                  r == ParseBlock(t, '{', '}', tools))
            && (tools.parse(t) == None && (!fenced || inside == None) && ParseBlock(t, '{', '}', tools) == None ==>
                  r == ParseBlock(t, '[', ']', tools))
  {
  }

  /** A fenced value comes back, whatever stands around the fence. */
  lemma {:induction false} FencedValueComesBack(text: string, inside: string, tools: Tools)
    requires tools.parse(tools.strip(text)) == None && tools.fences(tools.strip(text)) == inside
    requires inside != tools.strip(text) && tools.parse(tools.strip(inside)).Some?
    ensures ExtractAny(text, tools) == tools.parse(tools.strip(inside))
    ensures ExtractList(text, tools).Some? <==> tools.parse(tools.strip(inside)).value.List?
    ensures ExtractDict(text, tools).Some? <==> tools.parse(tools.strip(inside)).value.Dict?
  {
  }

}
