/** Response records of the Wekan board API and the field-name converter
    `to_lower_camel` that derives their camelCase JSON aliases. */
module Responses {
  import opened Common

  /** A UTC timestamp in microseconds since the epoch. */
  type Micros = int

  /** A decoded JSON value, as a custom field's `value: Any` holds it.
      Floating-point numbers are not part of this model. */
  datatype Json =
    | JNull
    | JBool(b: bool)
    | JInt(i: int)
    | JString(s: string)
    | JArray(items: seq<Json>)
    | JObject(entries: seq<(string, Json)>)

  /** Python's `bool(value)` for a decoded JSON value: only null, false, zero and
      the empty string, list and object are false. */
  predicate Truthy(v: Json): (b: bool)
    ensures b <==> v !in {JNull, JBool(false), JInt(0), JString(""), JArray([]), JObject([])}
  {
    match v
    case JNull => false
    case JBool(b) => b
    case JInt(i) => i != 0
    case JString(s) => s != []
    case JArray(items) => items != []
    case JObject(entries) => entries != []
  }

  datatype InlineBoard = InlineBoard(id: string, title: string)

  datatype InlineList = InlineList(id: string, title: string)

  datatype InlineCustomField = InlineCustomField(id: string, name: string, fieldType: string)

  /** A card as a list's card listing returns it. */
  datatype InlineCard = InlineCard(
    id: string,
    title: Option<string>,
    description: Option<string>,
    assignees: Option<seq<string>>,
    receivedAt: Option<Micros>,
    startAt: Option<Micros>,
    endAt: Option<Micros>,
    dueAt: Option<Micros>)

  datatype CustomFieldValue = CustomFieldValue(id: string, value: Json)

  /** A card as the single-card route returns it. */
  datatype Card = Card(
    id: string,
    title: Option<string>,
    description: Option<string>,
    receivedAt: Option<Micros>,
    startAt: Option<Micros>,
    endAt: Option<Micros>,
    dueAt: Option<Micros>,
    createdAt: Micros,
    dateLastActivity: Micros,
    boardId: string,
    listId: string,
    assignees: seq<string>,
    spentTime: Option<int>,
    customFields: seq<CustomFieldValue>)

  /** A comment as a card's comment listing returns it (`comment` is its text). */
  datatype InlineComment = InlineComment(id: string, authorId: string, comment: string)

  /** A comment as the single-comment route returns it. */
  datatype Comment = Comment(id: string, boardId: string, cardId: string, createdAt: Micros, userId: string)

  datatype InlineUser = InlineUser(id: string, username: string)

  datatype UserEmail = UserEmail(address: string, verified: bool)

  datatype UserProfile = UserProfile(fullname: Option<string>)

  datatype User = User(
    id: Option<string>,
    username: Option<string>,
    createdAt: Option<Micros>,
    profile: Option<UserProfile>,
    emails: Option<seq<UserEmail>>)

  // ---------------------------------------------------------------------
  // to_lower_camel: split on '_', keep the first component, title-case
  // the others and join them.  Case mapping covers ASCII letters only.
  // ---------------------------------------------------------------------

  predicate IsUpper(c: char) { 'A' <= c <= 'Z' }

  predicate IsLower(c: char) { 'a' <= c <= 'z' }

  /** Python's `str.isupper() or str.islower()` on one ASCII character. */
  predicate IsCased(c: char) { IsUpper(c) || IsLower(c) }

  function ToUpper(c: char): (u: char)
    ensures IsCased(c) ==> IsUpper(u)
    ensures !IsCased(c) ==> u == c
  {
    if IsLower(c) then (c as int - 32) as char else c
  }

  function ToLower(c: char): (l: char)
    ensures IsCased(c) ==> IsLower(l)
    ensures !IsCased(c) ==> l == c
  {
    if IsUpper(c) then (c as int + 32) as char else c
  }

  /** Python's `str.title()`: a cased character is upper-cased when the character
      before it is not cased and lower-cased otherwise; other characters are kept. */
  function Title(x: string): (t: string)
    ensures |t| == |x|
    ensures forall i :: 0 <= i < |x| ==> (t[i] == '_' <==> x[i] == '_')
    ensures forall i :: 0 <= i < |x| && !IsCased(x[i]) ==> t[i] == x[i]
  {
    TitleAfter(x, false)
  }

  function TitleAfter(x: string, previousCased: bool): (t: string)
    ensures |t| == |x|
    ensures forall i :: 0 <= i < |x| ==> (t[i] == '_' <==> x[i] == '_')
    ensures forall i :: 0 <= i < |x| && !IsCased(x[i]) ==> t[i] == x[i]
  {
    if x == [] then []
    else [if previousCased then ToLower(x[0]) else ToUpper(x[0])] + TitleAfter(x[1..], IsCased(x[0]))
  }

  function LowerAll(x: string): (l: string)
    ensures |l| == |x|
  {
    if x == [] then [] else [ToLower(x[0])] + LowerAll(x[1..])
  }

  predicate AllCased(x: string)
  {
    forall i :: 0 <= i < |x| ==> IsCased(x[i])
  }

  /** A run of letters is title-cased as its first letter upper-cased and the rest lower-cased. */
  lemma {:induction false} TitleOfLetters(x: string)
    requires x != [] && AllCased(x)
    ensures Title(x) == [ToUpper(x[0])] + LowerAll(x[1..])
  {
    LettersAfterCased(x[1..]);
  }

  lemma {:induction false} LettersAfterCased(x: string)
    requires AllCased(x)
    ensures TitleAfter(x, true) == LowerAll(x)
  {
    if x != [] {
      LettersAfterCased(x[1..]);
    }
  }

  /** Number of '_' characters in `s`. */
  function Underscores(s: string): nat
  {
    if s == [] then 0 else (if s[0] == '_' then 1 else 0) + Underscores(s[1..])
  }

  /** Total length of a sequence of strings. */
  function TotalLength(parts: seq<string>): nat
  {
    if parts == [] then 0 else |parts[0]| + TotalLength(parts[1..])
  }

  /** Python's `s.split('_')`. */
  function Split(s: string): (parts: seq<string>)
    ensures |parts| == Underscores(s) + 1
  {
    if s == [] then [[]]
    else
      var rest := Split(s[1..]);
      if s[0] == '_' then [[]] + rest else [[s[0]] + rest[0]] + rest[1..]
  }

  /** The components contain no '_', their lengths add up to the input length minus
      the underscores, and a string without '_' is its own single component. */
  lemma {:induction false} SplitComponents(s: string)
    ensures forall i :: 0 <= i < |Split(s)| ==> '_' !in Split(s)[i]
    ensures TotalLength(Split(s)) + Underscores(s) == |s|
    ensures '_' !in s ==> Split(s) == [s]
  {
    if s != [] {
      SplitComponents(s[1..]);
      SplitCons(s);
      var rest := Split(s[1..]);
      var parts := Split(s);
      assert TotalLength(parts) == |parts[0]| + TotalLength(parts[1..]);
      if s[0] == '_' {
        assert parts[1..] == rest;
        assert forall i :: 1 <= i < |parts| ==> parts[i] == rest[i - 1];
      } else {
        assert TotalLength(rest) == |rest[0]| + TotalLength(rest[1..]);
        assert parts[1..] == rest[1..];
        assert forall i :: 1 <= i < |parts| ==> parts[i] == rest[i];
        if '_' !in s {
          assert '_' !in s[1..];
          assert s == [s[0]] + s[1..];
        }
      }
    }
  }

  /** Python's `'_'.join(parts)`. */
  function Join(parts: seq<string>): string
    requires |parts| >= 1
  {
    if |parts| == 1 then parts[0] else parts[0] + "_" + Join(parts[1..])
  }

  /** One step of `Split`: a leading '_' starts a new component, any other character
      joins the first component of the rest. */
  lemma SplitCons(s: string)
    requires s != []
    ensures s[0] == '_' ==> Split(s) == [[]] + Split(s[1..])
    ensures s[0] != '_' ==> Split(s) == [[s[0]] + Split(s[1..])[0]] + Split(s[1..])[1..]
  {
  }

  /** Splitting and joining on '_' give back the original string. */
  lemma {:induction false} JoinSplit(s: string)
    ensures Join(Split(s)) == s
  {
    if s != [] {
      var rest := Split(s[1..]);
      JoinSplit(s[1..]);
      SplitCons(s);
      assert s == [s[0]] + s[1..];
      if s[0] == '_' {
        assert Split(s)[1..] == rest;
        assert Join(Split(s)) == [] + "_" + Join(rest);
      } else if |rest| == 1 {
        assert Split(s) == [[s[0]] + rest[0]];
      } else {
        var parts := Split(s);
        assert parts[0] == [s[0]] + rest[0] && parts[1..] == rest[1..];
        calc {
          Join(parts);
          ([s[0]] + rest[0]) + "_" + Join(rest[1..]);
          [s[0]] + (rest[0] + "_" + Join(rest[1..]));
          [s[0]] + Join(rest);
        }
      }
    }
  }

  /** Splitting a component free of '_' off the front of a string. */
  lemma {:induction false} SplitAfterComponent(a: string, b: string)
    requires '_' !in a
    ensures Split(a + "_" + b) == [a] + Split(b)
  {
    var s := a + "_" + b;
    SplitCons(s);
    if a == [] {
      assert s[0] == '_' && s[1..] == b;
    } else {
      var t := a[1..] + "_" + b;
      assert s[0] == a[0] && s[1..] == t;
      SplitAfterComponent(a[1..], b);
      assert Split(t)[0] == a[1..] && Split(t)[1..] == Split(b);
      assert [a[0]] + a[1..] == a;
    }
  }

  /** Every character of `x` is a lower-case ASCII letter. */
  predicate AllLower(x: string)
  {
    x == [] || (IsLower(x[0]) && AllLower(x[1..]))
  }

  lemma {:induction false} LowerAllOfLower(x: string)
    requires AllLower(x)
    ensures AllCased(x) && LowerAll(x) == x
  {
    if x != [] {
      LowerAllOfLower(x[1..]);
      assert x == [x[0]] + x[1..];
      assert forall i :: 1 <= i < |x| ==> x[i] == x[1..][i - 1];
    }
  }

  /** A lower-case word has no '_' and is title-cased by upper-casing its first letter. */
  lemma TitleOfLowerWord(x: string)
    requires x != [] && AllLower(x)
    ensures '_' !in x
    ensures Title(x) == [ToUpper(x[0])] + x[1..]
  {
    LowerAllOfLower(x);
    assert forall i :: 0 <= i < |x| ==> x[i] != '_' by {
      forall i | 0 <= i < |x|
        ensures x[i] != '_'
      {
        assert IsCased(x[i]);
      }
    }
    TitleOfLetters(x);
    LowerAllOfLower(x[1..]);
  }

  /** `''.join(x.title() for x in parts)`. */
  function TitledConcat(parts: seq<string>): (r: string)
    ensures |r| == TotalLength(parts)
    ensures (forall i :: 0 <= i < |parts| ==> '_' !in parts[i]) ==> '_' !in r
  {
    if parts == [] then []
    else
      var head := Title(parts[0]);
      assert '_' !in parts[0] ==> '_' !in head by {
        if '_' in head {
          var k :| 0 <= k < |head| && head[k] == '_';
        }
      }
      head + TitledConcat(parts[1..])
  }

  /** An empty component (from a leading, doubled or trailing '_') contributes nothing. */
  lemma {:induction false} EmptyPartVanishes(parts: seq<string>, i: nat)
    requires i < |parts| && parts[i] == []
    ensures TitledConcat(parts) == TitledConcat(parts[..i] + parts[i + 1..])
  {
    if i > 0 {
      EmptyPartVanishes(parts[1..], i - 1);
      assert parts[1..][..i - 1] + parts[1..][i..] == (parts[..i] + parts[i + 1..])[1..];
    } else {
      assert parts[..i] + parts[i + 1..] == parts[1..];
    }
  }

  /** `to_lower_camel`: the pydantic alias generator of every response record. */
  function ToLowerCamel(s: string): (r: string)
    ensures '_' !in r
    ensures '_' !in s ==> r == s
    ensures Split(s)[0] <= r
    ensures |r| == |s| - Underscores(s)
  {
    SplitComponents(s);
    var parts := Split(s);
    assert TotalLength(parts) == |parts[0]| + TotalLength(parts[1..]);
    parts[0] + TitledConcat(parts[1..])
  }

  /** Converting twice is the same as converting once. */
  lemma ToLowerCamelIdempotent(s: string)
    ensures ToLowerCamel(ToLowerCamel(s)) == ToLowerCamel(s)
  {
  }

  /** The first component is kept verbatim; every later one is title-cased. */
  lemma CamelOfComponents(a: string, rest: string)
    requires '_' !in a
    ensures ToLowerCamel(a + "_" + rest) == a + TitledConcat(Split(rest))
  {
    SplitAfterComponent(a, rest);
    assert ([a] + Split(rest))[1..] == Split(rest);
  }

  /** A single component is title-cased as a whole. */
  lemma TitledConcatOfWord(b: string)
    requires '_' !in b
    ensures TitledConcat(Split(b)) == Title(b)
  {
    SplitComponents(b);
    assert [b][1..] == [];
    assert TitledConcat([b]) == Title(b) + TitledConcat([]);
  }

  /** `token_expires` becomes `tokenExpires`: a lower-case word after '_' gains a capital. */
  lemma CamelOfTwoWords(a: string, b: string)
    requires '_' !in a && b != [] && AllLower(b)
    ensures ToLowerCamel(a + "_" + b) == a + [ToUpper(b[0])] + b[1..]
  {
    TitleOfLowerWord(b);
    CamelOfComponents(a, b);
    TitledConcatOfWord(b);
    assert a + ([ToUpper(b[0])] + b[1..]) == a + [ToUpper(b[0])] + b[1..];
  }

  /** A doubled '_' leaves an empty component, which contributes nothing. */
  lemma ToLowerCamelDoubledUnderscore()
    ensures ToLowerCamel("a__b") == "aB"
  {
    assert "a__b" == "a" + "_" + ("" + "_" + "b");
    SplitAfterComponent("", "b");
    SplitAfterComponent("a", "" + "_" + "b");
    TitleOfLowerWord("b");
    assert TitledConcat(["", "b"]) == Title("") + TitledConcat(["b"]);
  }
}
