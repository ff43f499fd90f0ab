/** The journal's setup fingerprint: `journal.setup_key_from_tags` joins `dim:value` tags with `|`,
    `attribution.parse_setup_key` takes such a text apart again. */
module Fingerprint {
  import opened PyStrings

  const UNKNOWN := "unknown"

  datatype Tag = Tag(dimension: string, value: string)

  /** One stripped token `dim:value`; a token that is empty says nothing. */
  function TokenTag(token: string): Option<Tag> {
    var t := Strip(token);
    if t == "" then None
    else
      var i := Find(t, ':');
      var dimension := Strip(t[..i]);
      var value := if i == |t| then "" else Strip(t[i + 1..]);
      Some(Tag(dimension, if dimension == "" || value == "" || Lower(value) == UNKNOWN then UNKNOWN else value))
  }

  function IndexOf(tags: seq<Tag>, dimension: string): (k: nat)
    ensures k <= |tags| && (k < |tags| ==> tags[k].dimension == dimension)
    ensures forall j :: 0 <= j < k ==> tags[j].dimension != dimension
  {
    if tags == [] || tags[0].dimension == dimension then 0 else 1 + IndexOf(tags[1..], dimension)
  }

  /** `tags[tag.dimension] = tag.value` on a dict in insertion order. */
  function PutTag(tags: seq<Tag>, tag: Tag): seq<Tag> {
    var k := IndexOf(tags, tag.dimension);
    if k < |tags| then tags[k := tag] else tags + [tag]
  }

  function TagsOf(tokens: seq<string>): seq<Tag> {
    if tokens == [] then []
    else
      var n := |tokens| - 1;
      var tag := TokenTag(tokens[n]);
      if tag.None? then TagsOf(tokens[..n]) else PutTag(TagsOf(tokens[..n]), tag.value)
  }

  /** The dict `parse_setup_key` returns; None is a key that is not a string. */
  function Parsed(key: Option<string>): seq<Tag> {
    if key.None? || Strip(key.value) == "" then [] else TagsOf(Split(key.value, '|'))
  }

  predicate DistinctTags(tags: seq<Tag>) {
    forall i, j :: 0 <= i < j < |tags| ==> tags[i].dimension != tags[j].dimension
  }

  /** `parse_setup_key` */
  method ParseSetupKey(key: Option<string>) returns (result: seq<Tag>)
    ensures result == Parsed(key)
    ensures DistinctTags(result)
  {
    hide UNKNOWN, Lower, Strip, PutTag, DistinctTags, Split;
    result := [];
    ParsedDistinct(key);
    if key.None? || Strip(key.value) == "" {
      return;
    }
    var tokens := Split(key.value, '|');
    for i := 0 to |tokens|
      invariant result == TagsOf(tokens[..i])
    {
      assert tokens[..i + 1][..i] == tokens[..i];
      var token := Strip(tokens[i]);
      if token == "" {
        continue;
      }
      var at := Find(token, ':');
      var dimension, value := Strip(token[..at]), UNKNOWN;
      if at < |token| {
        value := Strip(token[at + 1..]);
      }
      if dimension == "" || value == "" || Lower(value) == UNKNOWN {
        value := UNKNOWN;
      }
      result := PutTag(result, Tag(dimension, value));
    }
    assert tokens[..|tokens|] == tokens;
  }

  lemma {:induction false} TagsDistinct(tokens: seq<string>)
    ensures DistinctTags(TagsOf(tokens))
  {
    if tokens != [] {
      var n := |tokens| - 1;
      TagsDistinct(tokens[..n]);
    }
  }

  lemma ParsedDistinct(key: Option<string>)
    ensures DistinctTags(Parsed(key))
  {
    if key.Some? {
      TagsDistinct(Split(key.value, '|'));
    }
  }

  /** `setup_key_from_tags`: no tags at all print as a placeholder. */
  function SetupKey(tags: seq<Tag>): string {
    if tags == [] then UNKNOWN else Joined(tags)
  }

  function Joined(tags: seq<Tag>): string
    requires tags != []
  {
    if |tags| == 1 then Token(tags[0])
    else Token(tags[0]) + ['|'] + Joined(tags[1..])
  }

  function Token(tag: Tag): string { tag.dimension + [':'] + tag.value }

  /** A tag that prints as one token and says what it means. */
  predicate Plain(tag: Tag) {
    && tag.dimension != "" && tag.value != ""
    && Trimmed(tag.dimension, IsSpace) && Trimmed(tag.value, IsSpace)
    && '|' !in tag.dimension && ':' !in tag.dimension && '|' !in tag.value
    && (Lower(tag.value) == UNKNOWN ==> tag.value == UNKNOWN)
  }

  lemma TokenEnds(tag: Tag)
    requires Plain(tag)
    ensures Token(tag) != "" && Trimmed(Token(tag), IsSpace) && '|' !in Token(tag)
  {
  }

  lemma TokenParts(tag: Tag)
    requires Plain(tag)
    ensures var t, i := Token(tag), |tag.dimension|;
            Find(t, ':') == i && i < |t| && t[..i] == tag.dimension && t[i + 1..] == tag.value
  {
    FindAt(tag.dimension, ':', tag.value);
  }

  lemma TokenReadsBack(tag: Tag)
    requires Plain(tag)
    ensures TokenTag(Token(tag)) == Some(tag)
  {
    hide Token, Trimmed, StripIf, UNKNOWN, Lower;
    TokenEnds(tag);
    TokenParts(tag);
    StripTrimmed(Token(tag), IsSpace);
    StripTrimmed(tag.dimension, IsSpace);
    StripTrimmed(tag.value, IsSpace);
  }

  function Tokens(tags: seq<Tag>): (r: seq<string>)
    ensures |r| == |tags| && forall i :: 0 <= i < |r| ==> r[i] == Token(tags[i])
  {
    seq(|tags|, i requires 0 <= i < |tags| => Token(tags[i]))
  }

  lemma TrimmedJoin(a: string, c: char, b: string)
    requires a != "" && b != "" && Trimmed(a, IsSpace) && Trimmed(b, IsSpace)
    ensures Trimmed(a + [c] + b, IsSpace) && a + [c] + b != ""
  {
    hide IsSpace;
  }

  lemma {:induction false} JoinedSplits(tags: seq<Tag>)
    requires tags != [] && forall i :: 0 <= i < |tags| ==> Plain(tags[i])
    ensures Split(Joined(tags), '|') == Tokens(tags)
    ensures Trimmed(Joined(tags), IsSpace) && Joined(tags) != ""
  {
    hide Token, Plain, Trimmed, Split;
    TokenEnds(tags[0]);
    var token := Token(tags[0]);
    if |tags| == 1 {
      SplitStep(token, '|', "");
    } else {
      JoinedSplits(tags[1..]);
      var rest := Joined(tags[1..]);
      SplitStep(token, '|', rest);
      TrimmedJoin(token, '|', rest);
      assert Tokens(tags) == [token] + Tokens(tags[1..]);
    }
  }

  lemma {:induction false} TokensReadBack(tags: seq<Tag>)
    requires DistinctTags(tags) && forall i :: 0 <= i < |tags| ==> Plain(tags[i])
    ensures TagsOf(Tokens(tags)) == tags
  {
    hide Token, TokenTag, Plain;
    if tags != [] {
      var n := |tags| - 1;
      TokensReadBack(tags[..n]);
      assert Tokens(tags)[..n] == Tokens(tags[..n]);
      TokenReadsBack(tags[n]);
      assert tags == tags[..n] + [tags[n]];
    }
  }

  lemma PlaceholderParses()
    ensures Parsed(Some(UNKNOWN)) == [Tag(UNKNOWN, UNKNOWN)]
  {
    hide Lower;
    var u := UNKNOWN;
    assert u != "" && Trimmed(u, IsSpace) && '|' !in u && ':' !in u;
    SingleToken(u);
  }

  lemma SingleToken(u: string)
    requires u != "" && Trimmed(u, IsSpace) && '|' !in u && ':' !in u
    ensures Parsed(Some(u)) == [Tag(u, UNKNOWN)]
  {
    hide Lower, UNKNOWN;
    StripTrimmed(u, IsSpace);
    FindAbsent(u, '|');
    FindAbsent(u, ':');
    assert u[..|u|] == u;
    assert TokenTag(u) == Some(Tag(u, UNKNOWN));
    assert Split(u, '|') == [u] && [u][..0] == [] && TagsOf([]) == [];
  }

  /** Parsing a setup key gives back the tags it was made of, in order, except that the key of a
      trade without tags comes back as one made-up dimension. */
  lemma SetupKeyReadsBack(tags: seq<Tag>)
    requires DistinctTags(tags) && forall i :: 0 <= i < |tags| ==> Plain(tags[i])
    ensures Parsed(Some(SetupKey(tags))) == if tags == [] then [Tag(UNKNOWN, UNKNOWN)] else tags
  {
    hide UNKNOWN, Lower, Plain;
    if tags == [] {
      PlaceholderParses();
    } else {
      JoinedSplits(tags);
      StripTrimmed(Joined(tags), IsSpace);
      TokensReadBack(tags);
    }
  }

  // ── Any text as a key ────────────────────────────────────────────────────

  /** What one token says, around its first colon: the stripped texts before and after it, and `unknown` for a
      value that is missing, that says so in any capitals, or that has no dimension. */
  lemma TokenMeans(p: string, q: string, d: string, v: string)
    requires ':' !in p && IsCore(d, p) && IsCore(v, q)
    ensures TokenTag(p + [':'] + q) ==
            Some(Tag(d, if d == "" || v == "" || Lower(v) == "unknown" then "unknown" else v))
    ensures TokenTag(p) == if d == "" then None else Some(Tag(d, "unknown"))
  {
    hide StripIf, Lower, LStrip, RStrip, IsCore;
    CoreIsStrip(d, p);
    CoreIsStrip(v, q);
    StripAtMark(p, ':', q);
    var p', q' := LStrip(p, IsSpace), RStrip(q, IsSpace);
    FindAt(p', ':', q');
    var t := p' + [':'] + q';
    assert t[..|p'|] == p' && t[|p'| + 1..] == q';
    StripLeft(p);
    StripEnd(q);
    WithoutColon(p, d);
  }

  lemma WithoutColon(p: string, d: string)
    requires ':' !in p && d == Strip(p)
    ensures TokenTag(p) == if d == "" then None else Some(Tag(d, "unknown"))
  {
    hide Lower, StripIf;
    StripWithin(p);
    StripIfTrimmed(p, IsSpace);
    StripTrimmed(d, IsSpace);
    FindAbsent(d, ':');
    assert d[..|d|] == d;
  }

  predicate Says(tokens: seq<string>, i: nat, d: string) {
    i < |tokens| && TokenTag(tokens[i]).Some? && TokenTag(tokens[i]).value.dimension == d
  }

  /** Token `i` is the last about its dimension, and says `tag`. */
  ghost predicate LastSays(tokens: seq<string>, i: nat, tag: Tag) {
    i < |tokens| && TokenTag(tokens[i]) == Some(tag) && forall j :: i < j < |tokens| ==> !Says(tokens, j, tag.dimension)
  }

  /** Some token is about `d`, and none up to it about `e`. */
  ghost predicate ComesFirst(tokens: seq<string>, d: string, e: string) {
    exists i: nat :: Says(tokens, i, d) && forall j :: 0 <= j <= i ==> !Says(tokens, j, e)
  }

  lemma PutTagMembers(tags: seq<Tag>, tag: Tag)
    requires DistinctTags(tags)
    ensures forall x :: x in PutTag(tags, tag) <==> x == tag || (x in tags && x.dimension != tag.dimension)
  {
    var k, r := IndexOf(tags, tag.dimension), PutTag(tags, tag);
    forall x | x in tags && x.dimension != tag.dimension
      ensures x in r
    {
      var i :| 0 <= i < |tags| && tags[i] == x;
      assert r[i] == x;
    }
    assert r[if k < |tags| then k else |tags|] == tag;
  }

  lemma LastSaysStep(tokens: seq<string>, tag: Tag)
    requires tokens != []
    ensures var n := |tokens| - 1;
            (exists i: nat :: LastSays(tokens, i, tag)) <==>
            TokenTag(tokens[n]) == Some(tag) ||
            (!Says(tokens, n, tag.dimension) && exists i: nat :: LastSays(tokens[..n], i, tag))
  {
    hide TokenTag;
    var n := |tokens| - 1;
    if TokenTag(tokens[n]) == Some(tag) {
      assert LastSays(tokens, n, tag);
    }
    if i: nat :| LastSays(tokens, i, tag) {
      if i < n {
        forall j | i < j < n
          ensures !Says(tokens[..n], j, tag.dimension)
        {
          assert !Says(tokens, j, tag.dimension);
        }
        assert LastSays(tokens[..n], i, tag);
      }
    }
    if !Says(tokens, n, tag.dimension) && exists i: nat :: LastSays(tokens[..n], i, tag) {
      var i: nat :| LastSays(tokens[..n], i, tag);
      forall j | i < j < |tokens|
        ensures !Says(tokens, j, tag.dimension)
      {
        assert j < n ==> !Says(tokens[..n], j, tag.dimension);
      }
      assert LastSays(tokens, i, tag);
    }
  }

  /** The dimensions of a key have the values their last tokens give them. */
  lemma {:induction false} LastTokenWins(tokens: seq<string>, tag: Tag)
    ensures tag in TagsOf(tokens) <==> exists i: nat :: LastSays(tokens, i, tag)
  {
    hide TokenTag, LastSays, PutTag;
    if tokens == [] {
      assert !exists i: nat :: LastSays([], i, tag) by { NothingSaid(tag); }
    } else {
      var n := |tokens| - 1;
      LastTokenWins(tokens[..n], tag);
      LastSaysStep(tokens, tag);
      TagsDistinct(tokens[..n]);
      if TokenTag(tokens[n]).Some? {
        PutTagMembers(TagsOf(tokens[..n]), TokenTag(tokens[n]).value);
      }
    }
  }

  lemma NothingSaid(tag: Tag)
    ensures forall i: nat :: !LastSays([], i, tag)
  {
  }

  lemma ComesFirstLonger(tokens: seq<string>, d: string, e: string)
    requires tokens != [] && ComesFirst(tokens[..|tokens| - 1], d, e)
    ensures ComesFirst(tokens, d, e)
  {
    hide TokenTag;
    var n := |tokens| - 1;
    var i: nat :| Says(tokens[..n], i, d) && forall j :: 0 <= j <= i ==> !Says(tokens[..n], j, e);
    forall j | 0 <= j <= i
      ensures !Says(tokens, j, e)
    {
      assert !Says(tokens[..n], j, e);
    }
    assert Says(tokens, i, d);
  }

  lemma NewComesLast(init: seq<string>, token: string, d: string, e: string)
    requires exists i: nat :: Says(init, i, d)
    requires forall j: nat :: !Says(init, j, e)
    ensures ComesFirst(init + [token], d, e)
  {
    hide TokenTag;
    var tokens := init + [token];
    var i: nat :| Says(init, i, d);
    forall j | 0 <= j <= i
      ensures !Says(tokens, j, e)
    {
      assert !Says(init, j, e);
    }
    assert Says(tokens, i, d);
  }

  /** The dimensions of a key come in the order of their first tokens. */
  lemma {:induction false} FirstTokenOrders(tokens: seq<string>, a: nat, b: nat)
    requires a < b < |TagsOf(tokens)|
    ensures ComesFirst(tokens, TagsOf(tokens)[a].dimension, TagsOf(tokens)[b].dimension)
  {
    hide TokenTag, ComesFirst, Says;
    var n := |tokens| - 1;
    var init, tags := TagsOf(tokens[..n]), TagsOf(tokens);
    if b < |init| {
      FirstTokenOrders(tokens[..n], a, b);
      ComesFirstLonger(tokens, init[a].dimension, init[b].dimension);
      SameDimensions(tokens);
    } else {
      SameDimensions(tokens);
      AppearedOrNot(tokens[..n], init[a].dimension);
      AppearedOrNot(tokens[..n], tags[b].dimension);
      NewComesLast(tokens[..n], tokens[n], init[a].dimension, tags[b].dimension);
      assert tokens == tokens[..n] + [tokens[n]];
    }
  }

  /** One more token keeps the dimensions and may add its own at the end. */
  lemma SameDimensions(tokens: seq<string>)
    requires tokens != []
    ensures var n := |tokens| - 1;
            var init, tags := TagsOf(tokens[..n]), TagsOf(tokens);
            && |init| <= |tags| <= |init| + 1
            && (forall i :: 0 <= i < |init| ==> tags[i].dimension == init[i].dimension)
            && (|init| < |tags| ==>
                  && Says(tokens, n, tags[|init|].dimension)
                  && forall i :: 0 <= i < |init| ==> init[i].dimension != tags[|init|].dimension)
  {
    hide TokenTag;
  }

  lemma {:induction false} AppearedOrNot(tokens: seq<string>, d: string)
    ensures (exists k :: 0 <= k < |TagsOf(tokens)| && TagsOf(tokens)[k].dimension == d) <==>
            exists i: nat :: Says(tokens, i, d)
  {
    hide TokenTag;
    if tokens != [] {
      var n := |tokens| - 1;
      var init, tags := TagsOf(tokens[..n]), TagsOf(tokens);
      AppearedOrNot(tokens[..n], d);
      SameDimensions(tokens);
      SaysStep(tokens, d);
      SaidIsThere(tokens, d);
      hide Says;
      if k :| 0 <= k < |tags| && tags[k].dimension == d {
        if k < |init| {
          assert init[k].dimension == d;
        }
      }
      if k :| 0 <= k < |init| && init[k].dimension == d {
        assert tags[k].dimension == d;
      }
    }
  }

  lemma SaysStep(tokens: seq<string>, d: string)
    requires tokens != []
    ensures var n := |tokens| - 1;
            (exists i: nat :: Says(tokens, i, d)) <==> Says(tokens, n, d) || exists i: nat :: Says(tokens[..n], i, d)
  {
    hide TokenTag;
    var n := |tokens| - 1;
    if i: nat :| Says(tokens, i, d) {
      if i < n {
        assert Says(tokens[..n], i, d);
      }
    }
    if i: nat :| Says(tokens[..n], i, d) {
      assert Says(tokens, i, d);
    }
  }

  lemma SaidIsThere(tokens: seq<string>, d: string)
    requires tokens != []
    ensures Says(tokens, |tokens| - 1, d) ==>
              exists k :: 0 <= k < |TagsOf(tokens)| && TagsOf(tokens)[k].dimension == d
  {
    hide TokenTag;
    var n := |tokens| - 1;
    if Says(tokens, n, d) {
      var init := TagsOf(tokens[..n]);
      assert TagsOf(tokens)[IndexOf(init, d)].dimension == d;
    }
  }

  lemma {:induction false} SplitWithin(s: string, c: char, i: nat)
    requires i < |Split(s, c)|
    ensures forall x :: x in Split(s, c)[i] ==> x in s
  {
    var k := Find(s, c);
    if i > 0 {
      SplitWithin(s[k + 1..], c, i - 1);
    }
  }

  lemma BlankSaysNothing(key: string, i: nat, d: string)
    requires Strip(key) == ""
    ensures !Says(Split(key, '|'), i, d)
  {
    hide StripIf, Split;
    BlankIff(key);
    if i < |Split(key, '|')| {
      var token := Split(key, '|')[i];
      SplitWithin(key, '|', i);
      assert forall c :: c in key ==> IsSpace(c);
      assert forall j :: 0 <= j < |token| ==> token[j] in token;
      BlankIff(token);
    }
  }

  /** What any text says as a setup key, token by token: each dimension once, with the value of its last token,
      in the order of the first ones. */
  lemma ParsedMeans(key: string)
    ensures var tokens, tags := Split(key, '|'), Parsed(Some(key));
            && (forall tag :: tag in tags <==> exists i: nat :: LastSays(tokens, i, tag))
            && forall a, b :: 0 <= a < b < |tags| ==> ComesFirst(tokens, tags[a].dimension, tags[b].dimension)
  {
    hide Split, StripIf, ComesFirst, TokenTag;
    var tokens := Split(key, '|');
    if Strip(key) == "" {
      forall i: nat, d
        ensures !Says(tokens, i, d)
      {
        BlankSaysNothing(key, i, d);
      }
      assert forall i: nat, tag :: LastSays(tokens, i, tag) ==> Says(tokens, i, tag.dimension);
    } else {
      forall tag
        ensures tag in TagsOf(tokens) <==> exists i: nat :: LastSays(tokens, i, tag)
      {
        LastTokenWins(tokens, tag);
      }
      forall a, b | 0 <= a < b < |TagsOf(tokens)|
        ensures ComesFirst(tokens, TagsOf(tokens)[a].dimension, TagsOf(tokens)[b].dimension)
      {
        FirstTokenOrders(tokens, a, b);
      }
    }
  }
}
