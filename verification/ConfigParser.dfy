/**
 The key=value configuration reader, over a character sequence instead of a file.
 */
module ConfigParser {

  type Settings = map<string, string>

  predicate IsSpace(c: char) {
    c == ' ' || c == '\t' || c == '\n' || c == '\r' || c == '\U{B}' || c == '\U{C}'
  }

  // ---- The library calls that the reader is made of ----

  function SkipSpace(s: string): (r: string)
    ensures |r| <= |s|
    ensures r != [] ==> !IsSpace(r[0])
  {
    if s != [] && IsSpace(s[0]) then SkipSpace(s[1..]) else s
  }

  /** What getline extracts: everything before the first `delim`. */
  function Before(s: string, delim: char): (r: string)
    ensures |r| <= |s| && delim !in r && r == s[..|r|]
  {
    if s == [] || s[0] == delim then [] else [s[0]] + Before(s[1..], delim)
  }

  /** What getline leaves behind: everything after the first `delim`. */
  function After(s: string, delim: char): (r: string)
    ensures |r| <= |s| && (s != [] ==> |r| < |s|)
  {
    if s == [] then [] else if s[0] == delim then s[1..] else After(s[1..], delim)
  }

  function Without(s: string, c: char): string {
    if s == [] then [] else (if s[0] == c then [] else [s[0]]) + Without(s[1..], c)
  }

  function TrimRight(s: string): string {
    if s != [] && s[|s| - 1] == ' ' then TrimRight(s[..|s| - 1]) else s
  }

  function TrimLeft(s: string): string {
    if s != [] && s[0] == ' ' then TrimLeft(s[1..]) else s
  }

  // ---- The reader ----

  /** One line: comments, lines without a key and lines with nothing after `=` set nothing. */
  function ReadLine(m: Settings, line: string): Settings {
    var param := Without(line, '\r');
    var key := Before(param, '=');
    if key != [] && key[0] == '#' then m
    else
      var k, value := TrimRight(key), After(param, '=');
      if k == [] || value == [] then m else m[k := TrimRight(TrimLeft(value))]
  }

  function ReadAll(s: string, m: Settings): Settings
    decreases |s|
  {
    var t := SkipSpace(s);
    if t == [] then m else ReadAll(After(t, '\n'), ReadLine(m, Before(t, '\n')))
  }

  function GetValue(m: Settings, key: string): string {
    if key in m then m[key] else ""
  }

  class Parser {
    var configMap: Settings

    constructor ()
      ensures configMap == map[]
    {
      configMap := map[];
    }

    method ReadConfigFile(content: string)
      modifies this
      ensures configMap == ReadAll(content, old(configMap))
    {
      var rest := SkipSpace(content);
      while rest != []
        invariant rest == SkipSpace(rest)
        invariant ReadAll(content, old(configMap)) == ReadAll(rest, configMap)
        decreases |rest|
      {
        var param := Without(Before(rest, '\n'), '\r');
        rest := SkipSpace(After(rest, '\n'));
        var key := Before(param, '=');
        if key != [] && key[0] == '#' {
          continue;
        }
        key := TrimRight(key);
        if |key| > 0 {
          var value := After(param, '=');
          if value != [] {
            configMap := configMap[key := TrimRight(TrimLeft(value))];
          }
        }
      }
    }
  }

  // ---- Files as written ----

  datatype Item =
    | Entry(indent: string, key: string, before: nat, after: nat, value: string, trailing: nat)
    | Comment(indent: string, text: string)
    | Stray(indent: string, text: string)
    | Blank(indent: string)

  function Spaces(n: nat): string {
    if n == 0 then [] else Spaces(n - 1) + " "
  }

  predicate AllSpace(s: string) {
    forall i :: 0 <= i < |s| ==> s[i] in [' ', '\t', '\n', '\U{B}', '\U{C}', '\r']
  }

  predicate CleanKey(k: string) {
    && k != [] && !IsSpace(k[0]) && k[0] != '#' && k[|k| - 1] != ' '
    && '=' !in k && '\n' !in k && '\r' !in k
  }

  predicate CleanValue(v: string) {
    '\n' !in v && '\r' !in v && (v != [] ==> v[0] != ' ' && v[|v| - 1] != ' ')
  }

  predicate Clean(it: Item) {
    AllSpace(it.indent) && match it
    case Entry(_, k, _, _, v, _) => CleanKey(k) && CleanValue(v)
    case Comment(_, text) => '\n' !in text
    case Stray(_, text) =>
      && text != [] && !IsSpace(text[0]) && '\n' !in text && '\r' !in text
      && ('=' !in text || text[0] == '=')
    case Blank(_) => true
  }

  function RightSide(it: Item): string
    requires it.Entry?
  {
    Spaces(it.after) + it.value + Spaces(it.trailing)
  }

  function Line(it: Item): string {
    match it
    case Entry(_, k, before, _, _, _) => k + Spaces(before) + "=" + RightSide(it)
    case Comment(_, text) => "#" + text
    case Stray(_, text) => text
    case Blank(_) => ""
  }

  function PrintItem(it: Item): string {
    it.indent + Line(it) + "\n"
  }

  function Print(items: seq<Item>): string {
    if items == [] then [] else PrintItem(items[0]) + Print(items[1..])
  }

  /** What an item means: an entry with a non-empty right side sets its key, everything else nothing. */
  predicate Sets(it: Item) {
    it.Entry? && it.after + |it.value| + it.trailing > 0
  }

  function Meaning(items: seq<Item>, m: Settings): Settings {
    if items == [] then m
    else Meaning(items[1..], if Sets(items[0]) then m[items[0].key := items[0].value] else m)
  }

  // ---- Small facts ----

  lemma {:induction false} SkipSpaceRun(w: string, r: string)
    requires AllSpace(w)
    ensures SkipSpace(w + r) == SkipSpace(r)
  {
    if w == [] {
      assert w + r == r;
    } else {
      assert (w + r)[1..] == w[1..] + r;
      SkipSpaceRun(w[1..], r);
    }
  }

  lemma {:induction false} SplitAt(a: string, delim: char, b: string)
    requires delim !in a
    ensures Before(a + [delim] + b, delim) == a && After(a + [delim] + b, delim) == b
  {
    var s := a + [delim] + b;
    if a == [] {
      assert s[1..] == b;
    } else {
      assert s[1..] == a[1..] + [delim] + b;
      SplitAt(a[1..], delim, b);
    }
  }

  lemma {:induction false} NothingToRemove(s: string, c: char)
    requires c !in s
    ensures Without(s, c) == s
  {
    if s == [] {
    } else {
      NothingToRemove(s[1..], c);
    }
  }

  lemma {:induction false} SpacesAre(n: nat)
    ensures |Spaces(n)| == n && forall i :: 0 <= i < n ==> Spaces(n)[i] == ' '
  {
    if n == 0 {
    } else {
      SpacesAre(n - 1);
    }
  }

  lemma {:induction false} TrimRightPadding(s: string, n: nat)
    requires s != [] ==> s[|s| - 1] != ' '
    ensures TrimRight(s + Spaces(n)) == s
  {
    if n == 0 {
      assert s + Spaces(0) == s;
    } else {
      assert (s + Spaces(n))[..|s + Spaces(n)| - 1] == s + Spaces(n - 1);
      TrimRightPadding(s, n - 1);
    }
  }

  lemma {:induction false} TrimLeftPadding(n: nat, s: string)
    requires s != [] ==> s[0] != ' '
    ensures TrimLeft(Spaces(n) + s) == s
  {
    SpacesAre(n);
    if n == 0 {
      assert Spaces(0) + s == s;
    } else {
      SpacesAre(n - 1);
      assert Spaces(n)[1..] == Spaces(n - 1);
      assert (Spaces(n) + s)[1..] == Spaces(n - 1) + s;
      TrimLeftPadding(n - 1, s);
    }
  }

  lemma SpacesJoin(a: nat, b: nat)
    ensures Spaces(a) + Spaces(b) == Spaces(a + b)
  {
    SpacesAre(a);
    SpacesAre(b);
    SpacesAre(a + b);
  }

  lemma TrimSpaces(n: nat)
    ensures TrimRight(TrimLeft(Spaces(n))) == []
  {
    TrimLeftPadding(n, []);
    assert Spaces(n) + [] == Spaces(n);
  }

  lemma TrimPadded(after: nat, v: string, trailing: nat)
    requires v != [] && v[0] != ' ' && v[|v| - 1] != ' '
    ensures TrimRight(TrimLeft(Spaces(after) + (v + Spaces(trailing)))) == v
  {
    hide TrimLeft, TrimRight, Spaces;
    TrimLeftPadding(after, v + Spaces(trailing));
    TrimRightPadding(v, trailing);
  }

  lemma TrimBoth(after: nat, v: string, trailing: nat)
    requires CleanValue(v)
    ensures TrimRight(TrimLeft(Spaces(after) + v + Spaces(trailing))) == v
  {
    hide TrimLeft, TrimRight, Spaces;
    if v == [] {
      SpacesJoin(after, trailing);
      assert Spaces(after) + v == Spaces(after);
      TrimSpaces(after + trailing);
    } else {
      assert Spaces(after) + v + Spaces(trailing) == Spaces(after) + (v + Spaces(trailing));
      TrimPadded(after, v, trailing);
    }
  }

  // ---- Reading back what is written ----

  lemma EntryLine(it: Item, m: Settings)
    requires it.Entry? && Clean(it)
    ensures ReadLine(m, Line(it)) == if Sets(it) then m[it.key := it.value] else m
    ensures '\n' !in Line(it)
  {
    hide Without, Before, After, TrimRight, TrimLeft, Spaces;
    SpacesAre(it.before);
    SpacesAre(it.after);
    SpacesAre(it.trailing);
    NothingToRemove(Line(it), '\r');
    var left := it.key + Spaces(it.before);
    assert Line(it) == left + ['='] + RightSide(it);
    SplitAt(left, '=', RightSide(it));
    assert left[0] == it.key[0];
    TrimRightPadding(it.key, it.before);
    TrimBoth(it.after, it.value, it.trailing);
    assert |RightSide(it)| == it.after + |it.value| + it.trailing;
  }

  lemma CommentLine(it: Item, m: Settings)
    requires it.Comment? && Clean(it)
    ensures ReadLine(m, Line(it)) == m
  {
    var p := Without(Line(it), '\r');
    assert p[0] == '#';
  }

  /** A line without `=`, or with nothing before it, sets nothing. */
  lemma StrayLine(it: Item, m: Settings)
    requires it.Stray? && Clean(it)
    ensures ReadLine(m, Line(it)) == m
  {
    NothingToRemove(it.text, '\r');
    if it.text[0] == '=' {
      assert Before(it.text, '=') == [] && TrimRight([]) == [];
    } else {
      NoDelimiter(it.text, '=');
    }
    hide Without, Before, After, TrimRight, TrimLeft;
  }

  lemma {:induction false} NoDelimiter(s: string, delim: char)
    requires delim !in s
    ensures After(s, delim) == []
  {
    if s == [] {
    } else {
      NoDelimiter(s[1..], delim);
    }
  }

  lemma ItemReadsBack(it: Item, rest: string, m: Settings)
    requires Clean(it)
    ensures ReadAll(PrintItem(it) + rest, m) == ReadAll(rest, if Sets(it) then m[it.key := it.value] else m)
  {
    var s := PrintItem(it) + rest;
    if it.Blank? {
      assert s == (it.indent + "\n") + rest;
      SkipSpaceRun(it.indent + "\n", rest);
    } else {
      var line := Line(it);
      var t := line + ['\n'] + rest;
      assert s == it.indent + t;
      SkipSpaceRun(it.indent, t);
      assert t[0] == line[0] && SkipSpace(t) == t;
      if it.Entry? {
        EntryLine(it, m);
      } else if it.Comment? {
        CommentLine(it, m);
      } else {
        StrayLine(it, m);
      }
      SplitAt(line, '\n', rest);
    }
  }

  /** A file of entries, comments, stray and blank lines reads back as its entries mean. */
  lemma {:induction false} FileReadsBack(items: seq<Item>, m: Settings)
    requires forall i :: 0 <= i < |items| ==> Clean(items[i])
    ensures ReadAll(Print(items), m) == Meaning(items, m)
  {
    if items == [] {
    } else {
      ItemReadsBack(items[0], Print(items[1..]), m);
      FileReadsBack(items[1..], if Sets(items[0]) then m[items[0].key := items[0].value] else m);
    }
  }

  lemma {:induction false} MeaningConcat(a: seq<Item>, b: seq<Item>, m: Settings)
    ensures Meaning(a + b, m) == Meaning(b, Meaning(a, m))
  {
    if a == [] {
      assert a + b == b;
    } else {
      assert (a + b)[1..] == a[1..] + b;
      MeaningConcat(a[1..], b, if Sets(a[0]) then m[a[0].key := a[0].value] else m);
    }
  }

  /** Comments, stray and blank lines anywhere in a file change nothing. */
  lemma CommentsChangeNothing(a: seq<Item>, c: Item, b: seq<Item>, m: Settings)
    requires forall i :: 0 <= i < |a| ==> Clean(a[i])
    requires forall i :: 0 <= i < |b| ==> Clean(b[i])
    requires Clean(c) && !c.Entry?
    ensures ReadAll(Print(a + [c] + b), m) == ReadAll(Print(a + b), m)
  {
    assert a + [c] + b == a + ([c] + b);
    FileReadsBack(a + ([c] + b), m);
    FileReadsBack(a + b, m);
    hide ReadAll, Print, Clean, Meaning;
    MeaningConcat(a, [c] + b, m);
    MeaningConcat(a, b, m);
    SkipOne(c, b, Meaning(a, m));
  }

  lemma SkipOne(c: Item, b: seq<Item>, m: Settings)
    requires !Sets(c)
    ensures Meaning([c] + b, m) == Meaning(b, m)
  {
    assert ([c] + b)[1..] == b;
  }

  // ---- Carriage returns ----

  lemma {:induction false} SkipSpaceWithout(s: string)
    ensures SkipSpace(Without(s, '\r')) == Without(SkipSpace(s), '\r')
  {
    if s == [] {
    } else {
      var w := Without(s[1..], '\r');
      assert [] + w == w && ([s[0]] + w)[1..] == w;
      SkipSpaceWithout(s[1..]);
    }
  }

  lemma {:induction false} SplitWithout(s: string)
    ensures Before(Without(s, '\r'), '\n') == Without(Before(s, '\n'), '\r')
    ensures After(Without(s, '\r'), '\n') == Without(After(s, '\n'), '\r')
  {
    if s == [] {
    } else {
      var w, b := Without(s[1..], '\r'), Before(s[1..], '\n');
      assert [] + w == w && [] + Without(b, '\r') == Without(b, '\r');
      assert ([s[0]] + w)[1..] == w && ([s[0]] + b)[1..] == b;
      SplitWithout(s[1..]);
    }
  }

  lemma {:induction false} WithoutIsClean(s: string, c: char)
    ensures c !in Without(s, c)
  {
    if s == [] {
    } else {
      WithoutIsClean(s[1..], c);
    }
  }

  /** Carriage returns, wherever they are in a file, make no difference: a file with CRLF ends reads as one without. */
  lemma {:induction false} CarriageReturnsIgnored(s: string, m: Settings)
    ensures ReadAll(Without(s, '\r'), m) == ReadAll(s, m)
    decreases |s|
  {
    SkipSpaceWithout(s);
    var t := SkipSpace(s);
    if t == [] {
    } else {
      assert Without(t, '\r') == [t[0]] + Without(t[1..], '\r');
      SplitWithout(t);
      var line := Before(t, '\n');
      WithoutIsClean(line, '\r');
      NothingToRemove(Without(line, '\r'), '\r');
      CarriageReturnsIgnored(After(t, '\n'), ReadLine(m, line));
      hide Without, Before, After, SkipSpace, TrimLeft, TrimRight;
      assert ReadLine(m, Without(line, '\r')) == ReadLine(m, line);
    }
  }

  /** The last line for a key with a non-empty right side wins. */
  lemma LastLineWins(a: seq<Item>, e: Item, b: seq<Item>, m: Settings)
    requires forall i :: 0 <= i < |a| ==> Clean(a[i])
    requires forall i :: 0 <= i < |b| ==> Clean(b[i])
    requires Clean(e) && Sets(e)
    requires Avoids(b, e.key)
    ensures GetValue(ReadAll(Print(a + [e] + b), m), e.key) == e.value
  {
    assert a + [e] + b == a + ([e] + b);
    FileReadsBack(a + ([e] + b), m);
    hide ReadAll, Print, Clean, Meaning;
    MeaningConcat(a, [e] + b, m);
    SetThenOthers(e, b, Meaning(a, m));
  }

  /** No item sets the key. */
  predicate Avoids(items: seq<Item>, key: string) {
    forall i :: 0 <= i < |items| && Sets(items[i]) ==> items[i].key != key
  }

  lemma SetThenOthers(e: Item, b: seq<Item>, m: Settings)
    requires e.Entry?
    requires Avoids(b, e.key)
    ensures GetValue(Meaning([e] + b, m), e.key) == if Sets(e) then e.value else GetValue(m, e.key)
  {
    assert ([e] + b)[1..] == b;
    OtherKeysLeaveAlone(b, e.key, if Sets(e) then m[e.key := e.value] else m);
  }

  lemma {:induction false} OtherKeysLeaveAlone(items: seq<Item>, key: string, m: Settings)
    requires Avoids(items, key)
    ensures GetValue(Meaning(items, m), key) == GetValue(m, key)
  {
    if items == [] {
    } else {
      OtherKeysLeaveAlone(items[1..], key, if Sets(items[0]) then m[items[0].key := items[0].value] else m);
    }
  }

  /** A map printed as key=value lines, in the order given by `keys`. */
  function PrintMap(m: Settings, keys: seq<string>): seq<Item>
    requires forall i :: 0 <= i < |keys| ==> keys[i] in m
  {
    seq(|keys|, i requires 0 <= i < |keys| => Entry("", keys[i], 0, 0, m[keys[i]], 0))
  }

  /** The lines before and after the i-th are about other keys. */
  lemma OtherLines(m: Settings, keys: seq<string>, i: nat)
    requires forall j :: 0 <= j < |keys| ==> keys[j] in m
    requires forall j, k :: 0 <= j < k < |keys| ==> keys[j] != keys[k]
    requires i < |keys|
    ensures var items := PrintMap(m, keys);
            && items == items[..i] + ([items[i]] + items[i + 1..])
            && Avoids(items[..i], keys[i]) && Avoids(items[i + 1..], keys[i])
  {
    var b := PrintMap(m, keys)[i + 1..];
    assert forall j :: 0 <= j < |b| ==> b[j].key == keys[i + 1 + j];
  }

  lemma MapMeaning(m: Settings, keys: seq<string>, i: nat)
    requires forall j :: 0 <= j < |keys| ==> keys[j] in m
    requires forall j, k :: 0 <= j < k < |keys| ==> keys[j] != keys[k]
    requires i < |keys|
    ensures GetValue(Meaning(PrintMap(m, keys), map[]), keys[i]) == m[keys[i]]
  {
    var items := PrintMap(m, keys);
    var a, b := items[..i], items[i + 1..];
    OtherLines(m, keys, i);
    hide Meaning;
    MeaningConcat(a, [items[i]] + b, map[]);
    OtherKeysLeaveAlone(a, keys[i], map[]);
    SetThenOthers(items[i], b, Meaning(a, map[]));
  }

  /** Printing any map of clean keys and values and reading it back gives the same value for every key. */
  lemma MapRoundTrip(m: Settings, keys: seq<string>, key: string)
    requires forall k :: k in m <==> k in keys
    requires forall i, j :: 0 <= i < j < |keys| ==> keys[i] != keys[j]
    requires forall k :: k in m ==> CleanKey(k) && CleanValue(m[k])
    ensures GetValue(ReadAll(Print(PrintMap(m, keys)), map[]), key) == GetValue(m, key)
  {
    hide ReadAll, Print, Meaning, CleanKey, CleanValue;
    var items := PrintMap(m, keys);
    FileReadsBack(items, map[]);
    if key !in m {
      OtherKeysLeaveAlone(items, key, map[]);
    } else {
      var i :| 0 <= i < |keys| && keys[i] == key;
      MapMeaning(m, keys, i);
    }
  }
}
