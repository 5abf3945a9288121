/**
 The matcher of user/grep.c against the language its patterns denote. Strings are
 without the terminating NUL.
 */
module Regex {
  /** A pattern as the code reads it: one character, a starred character, or $ at the end. */
  datatype Item = One(c: char) | Star(c: char) | End

  function Items(re: string): seq<Item> {
    if re == "" then []
    else if |re| >= 2 && re[1] == '*' then [Star(re[0])] + Items(re[2..])
    else if re == "$" then [End]
    else [One(re[0])] + Items(re[1..])
  }

  /** How an item is written. */
  function Spell(item: Item): (s: string)
    ensures s != ""
  {
    match item
    case One(c) => [c]
    case Star(c) => [c, '*']
    case End => "$"
  }

  function SpellAll(items: seq<Item>): string {
    if items == [] then "" else Spell(items[0]) + SpellAll(items[1..])
  }

  /** A character is starred if a star follows it, and a dollar at the very end is the end of the text. */
  predicate WellRead(items: seq<Item>) {
    && (forall i :: 0 <= i < |items| - 1 && items[i].One? ==> Spell(items[i + 1])[0] != '*')
    && (forall i :: 0 <= i < |items| ==> (items[i] == End ==> i == |items| - 1))
    && (items != [] ==> items[|items| - 1] != One('$'))
  }

  /** A pattern string is read in exactly one way: into the items that spell it with every star on
      the character before it and a final dollar as the end. */
  lemma {:induction false} ItemsAre(re: string, items: seq<Item>)
    ensures Items(re) == items <==> SpellAll(items) == re && WellRead(items)
    decreases |re|
  {
    if re == "" {
      assert items != [] ==> Spell(items[0])[0] == SpellAll(items)[0];
    } else {
      ItemsRead(re);
      if SpellAll(items) == re && WellRead(items) {
        FirstItem(re, items);
        var n := |Spell(items[0])|;
        assert SpellAll(items)[n..] == SpellAll(items[1..]);
        RestRead(items);
        ItemsAre(re[n..], items[1..]);
        assert items == [items[0]] + items[1..];
      }
    }
  }

  lemma {:induction false} ItemsRead(re: string)
    ensures SpellAll(Items(re)) == re && WellRead(Items(re))
    decreases |re|
  {
    if re != "" {
      var n := if |re| >= 2 && re[1] == '*' then 2 else 1;
      var item := if n == 2 then Star(re[0]) else if re == "$" then End else One(re[0]);
      if re != "$" { ItemsRead(re[n..]); }
      var rest := Items(re[n..]);
      assert Items(re) == [item] + rest && re == Spell(item) + re[n..];
      assert ([item] + rest)[1..] == rest;
      if rest != [] { FirstSpelled(rest); }
    }
  }

  lemma FirstSpelled(items: seq<Item>)
    requires items != []
    ensures SpellAll(items) != "" && SpellAll(items)[0] == Spell(items[0])[0]
  {
  }

  lemma RestRead(items: seq<Item>)
    requires WellRead(items) && items != []
    ensures WellRead(items[1..])
  {
    var rest := items[1..];
    forall i | 0 <= i < |rest| - 1 && rest[i].One? ensures Spell(rest[i + 1])[0] != '*' {
      assert items[i + 1].One? && items[i + 2] == rest[i + 1];
    }
  }

  /** The first item that spells a pattern is the one the code reads. */
  lemma FirstItem(re: string, items: seq<Item>)
    requires re != "" && SpellAll(items) == re && WellRead(items)
    ensures items != []
    ensures items[0] == if |re| >= 2 && re[1] == '*' then Star(re[0]) else if re == "$" then End else One(re[0])
  {
    var rest := items[1..];
    assert re == Spell(items[0]) + SpellAll(rest);
    if rest == [] {
      assert re == Spell(items[0]) && items[|items| - 1] == items[0];
    } else {
      FirstSpelled(rest);
      assert items[1] == rest[0] && re[|Spell(items[0])|] == Spell(items[1])[0];
    }
  }

  /** A pattern character stands for a text character. */
  predicate Fits(c: char, x: char) {
    c == '.' || c == x
  }

  /** All of u is made of characters c stands for. */
  predicate AllFit(c: char, u: string) {
    forall k :: 0 <= k < |u| ==> Fits(c, u[k])
  }

  /** u is in the language of the items, where $ denotes the empty string. */
  ghost predicate InLang(items: seq<Item>, u: string)
    decreases |items|
  {
    if items == [] then u == ""
    else match items[0]
      case One(c) => u != "" && Fits(c, u[0]) && InLang(items[1..], u[1..])
      case Star(c) => exists k :: 0 <= k <= |u| && AllFit(c, u[..k]) && InLang(items[1..], u[k..])
      case End => InLang(items[1..], u)
  }

  predicate Anchored(items: seq<Item>) {
    items != [] && items[|items| - 1] == End
  }

  /** Some prefix of the text is in the language, all of it if the pattern ends with $. */
  ghost predicate Here(items: seq<Item>, text: string) {
    exists n :: 0 <= n <= |text| && InLang(items, text[..n]) && (Anchored(items) ==> n == |text|)
  }

  /** The pattern occurs in the text: at its start after ^, anywhere else. */
  ghost predicate Occurs(re: string, text: string) {
    if re != "" && re[0] == '^' then Here(Items(re[1..]), text)
    else exists i :: 0 <= i <= |text| && Here(Items(re), text[i..])
  }

  lemma HereOne(c: char, rest: seq<Item>, text: string)
    ensures Here([One(c)] + rest, text) <==> text != "" && Fits(c, text[0]) && Here(rest, text[1..])
  {
    var items := [One(c)] + rest;
    assert items[1..] == rest && Anchored(items) == Anchored(rest);
    if Here(items, text) {
      var n :| 0 <= n <= |text| && InLang(items, text[..n]) && (Anchored(items) ==> n == |text|);
      assert text[..n][1..] == text[1..][..n - 1];
    }
    if text != "" && Fits(c, text[0]) && Here(rest, text[1..]) {
      var n :| 0 <= n <= |text[1..]| && InLang(rest, text[1..][..n]) && (Anchored(rest) ==> n == |text[1..]|);
      assert text[..n + 1][1..] == text[1..][..n];
      assert InLang(items, text[..n + 1]);
    }
  }

  lemma HereStar(c: char, rest: seq<Item>, text: string)
    ensures Here([Star(c)] + rest, text) <==> exists k :: 0 <= k <= |text| && AllFit(c, text[..k]) && Here(rest, text[k..])
  {
    var items := [Star(c)] + rest;
    assert items[1..] == rest;
    assert rest != [] ==> Anchored(items) == Anchored(rest);
    if Here(items, text) {
      var n :| 0 <= n <= |text| && InLang(items, text[..n]) && (Anchored(items) ==> n == |text|);
      var k :| 0 <= k <= n && AllFit(c, text[..n][..k]) && InLang(rest, text[..n][k..]);
      assert text[..n][..k] == text[..k] && text[..n][k..] == text[k..][..n - k];
      assert Here(rest, text[k..]);
    }
    if exists k :: 0 <= k <= |text| && AllFit(c, text[..k]) && Here(rest, text[k..]) {
      var k :| 0 <= k <= |text| && AllFit(c, text[..k]) && Here(rest, text[k..]);
      var n :| 0 <= n <= |text[k..]| && InLang(rest, text[k..][..n]) && (Anchored(rest) ==> n == |text[k..]|);
      var u := text[..k + n];
      assert u[..k] == text[..k] && u[k..] == text[k..][..n];
      assert InLang(items, u);
    }
  }

  lemma HereEnds(text: string)
    ensures Here([], text)
    ensures Here([End], text) <==> text == ""
  {
    assert InLang([], text[..0]);
    assert [End][1..] == [];
    if text == "" { assert InLang([End], text[..0]); }
  }

  /** matchhere */
  method Matchhere(re: string, text: string) returns (r: bool)
    ensures r <==> Here(Items(re), text)
    decreases |re|, 0
  {
    hide Here, Fits;
    HereEnds(text);
    if re == "" {
      return true;
    }
    if |re| >= 2 && re[1] == '*' {
      HereStar(re[0], Items(re[2..]), text);
      r := Matchstar(re[0], re[2..], text);
      return;
    }
    if re == "$" {
      return text == "";
    }
    HereOne(re[0], Items(re[1..]), text);
    if text != "" && (re[0] == '.' || re[0] == text[0]) {
      FitsIs(re[0], text[0]);
      r := Matchhere(re[1..], text[1..]);
      return;
    }
    if text != "" { FitsIs(re[0], text[0]); }
    r := false;
  }

  lemma FitsIs(c: char, x: char)
    ensures Fits(c, x) <==> c == '.' || c == x
  {
  }

  /** matchstar: zero or more of c, then re. */
  method Matchstar(c: char, re: string, text: string) returns (r: bool)
    ensures r <==> exists k :: 0 <= k <= |text| && AllFit(c, text[..k]) && Here(Items(re), text[k..])
    decreases |re|, 1
  {
    hide Here;
    var i := 0;
    while true
      invariant 0 <= i <= |text| && AllFit(c, text[..i])
      invariant forall k :: 0 <= k < i ==> !Here(Items(re), text[k..])
      decreases |text| - i
    {
      var m := Matchhere(re, text[i..]);
      if m {
        return true;
      }
      if i == |text| {
        return false;
      }
      if !(text[i] == c || c == '.') {
        forall k | i < k <= |text| ensures !AllFit(c, text[..k]) {
          assert text[..k][i] == text[i];
        }
        return false;
      }
      assert text[..i + 1] == text[..i] + [text[i]];
      i := i + 1;
    }
  }

  /** match: 1 exactly when the pattern occurs in the text. */
  method Match(re: string, text: string) returns (r: bool)
    ensures r <==> Occurs(re, text)
  {
    hide Here;
    if re != "" && re[0] == '^' {
      r := Matchhere(re[1..], text);
      return;
    }
    var i := 0;
    while true
      invariant 0 <= i <= |text| && forall k :: 0 <= k < i ==> !Here(Items(re), text[k..])
      decreases |text| - i
    {
      var m := Matchhere(re, text[i..]);
      if m {
        return true;
      }
      if i == |text| {
        return false;
      }
      i := i + 1;
    }
  }
}
