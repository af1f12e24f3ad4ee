/** Object keys: the filename sanitiser, and why no two versions share a key. */
module StorageKey {

  // ---- filepath.Base on a slash-separated system.

  function StripSlashes(path: string): string {
    if path != [] && path[|path| - 1] == '/' then StripSlashes(path[..|path| - 1]) else path
  }

  function LastElement(path: string): string {
    if path == [] || path[|path| - 1] == '/' then []
    else LastElement(path[..|path| - 1]) + [path[|path| - 1]]
  }

  function Base(path: string): string {
    if path == "" then "."
    else
      var last := LastElement(StripSlashes(path));
      if last == "" then "/" else last
  }

  // ---- The sanitiser.

  predicate IsPunctuation(c: char) {
    c == '.' || c == '_' || c == '-'
  }

  predicate IsSafe(c: char) {
    'a' <= c <= 'z' || 'A' <= c <= 'Z' || '0' <= c <= '9' || IsPunctuation(c)
  }

  predicate AllSafe(name: string) {
    forall i :: 0 <= i < |name| ==> IsSafe(name[i])
  }

  function DropUnsafe(name: string): (rest: string)
    ensures |rest| <= |name|
  {
    if name == [] || IsSafe(name[0]) then name else DropUnsafe(name[1..])
  }

  /** Every maximal run of unsafe characters becomes one underscore. */
  function ReplaceUnsafe(name: string): string
    decreases |name|
  {
    if name == [] then []
    else if IsSafe(name[0]) then [name[0]] + ReplaceUnsafe(name[1..])
    else "_" + ReplaceUnsafe(DropUnsafe(name[1..]))
  }

  function TrimLeft(name: string): string {
    if name == [] || !IsPunctuation(name[0]) then name else TrimLeft(name[1..])
  }

  function TrimRight(name: string): string {
    if name == [] || !IsPunctuation(name[|name| - 1]) then name else TrimRight(name[..|name| - 1])
  }

  function Sanitise(filename: string): string {
    var safe := TrimRight(TrimLeft(ReplaceUnsafe(Base(filename))));
    if safe == "" then "document" else safe
  }

  function KeyOf(document: string, version: string, name: string): string {
    "documents/" + document + "/versions/" + version + "/" + name
  }

  /** The key of the document and share services; office saving uses the filename as it is. */
  function ServiceKey(document: string, version: string, filename: string): string {
    KeyOf(document, version, Sanitise(filename))
  }

  // ---- What a sanitised name looks like.

  predicate IsClean(name: string) {
    name != "" && AllSafe(name) && !IsPunctuation(name[0]) && !IsPunctuation(name[|name| - 1])
  }

  lemma {:induction false} ReplaceUnsafeIsSafe(name: string)
    ensures AllSafe(ReplaceUnsafe(name))
    decreases |name|
  {
    if name != [] {
      if IsSafe(name[0]) { ReplaceUnsafeIsSafe(name[1..]); } else { ReplaceUnsafeIsSafe(DropUnsafe(name[1..])); }
    }
  }

  lemma {:induction false} TrimLeftKeepsSafe(name: string)
    requires AllSafe(name)
    ensures AllSafe(TrimLeft(name)) && (TrimLeft(name) != [] ==> !IsPunctuation(TrimLeft(name)[0]))
    decreases |name|
  {
    if name != [] && IsPunctuation(name[0]) { TrimLeftKeepsSafe(name[1..]); }
  }

  lemma {:induction false} TrimRightIsPrefix(name: string)
    ensures TrimRight(name) <= name
    ensures TrimRight(name) != [] ==> !IsPunctuation(TrimRight(name)[|TrimRight(name)| - 1])
    decreases |name|
  {
    if name != [] && IsPunctuation(name[|name| - 1]) { TrimRightIsPrefix(name[..|name| - 1]); }
  }

  /** For every filename: non-empty, over [A-Za-z0-9._-], no punctuation at either end. */
  lemma SanitisedIsClean(filename: string)
    ensures IsClean(Sanitise(filename))
  {
    var replaced := ReplaceUnsafe(Base(filename));
    ReplaceUnsafeIsSafe(Base(filename));
    TrimLeftKeepsSafe(replaced);
    TrimRightIsPrefix(TrimLeft(replaced));
  }

  lemma {:induction false} SafeIsReplacedByItself(name: string)
    requires AllSafe(name)
    ensures ReplaceUnsafe(name) == name
    decreases |name|
  {
    if name != [] { SafeIsReplacedByItself(name[1..]); }
  }

  lemma {:induction false} SlashFreeIsLastElement(name: string)
    requires '/' !in name
    ensures LastElement(name) == name
    decreases |name|
  {
    if name != [] {
      assert name[|name| - 1] in name;
      SlashFreeIsLastElement(name[..|name| - 1]);
    }
  }

  /** The sanitiser leaves a name alone exactly when it is clean already; so it is idempotent. */
  lemma SanitiseFixesExactlyCleanNames(name: string)
    ensures Sanitise(name) == name <==> IsClean(name)
    ensures Sanitise(Sanitise(name)) == Sanitise(name)
  {
    SanitisedIsClean(name);
    CleanStays(Sanitise(name));
    if IsClean(name) { CleanStays(name); }
  }

  lemma CleanStays(name: string)
    requires IsClean(name)
    ensures Sanitise(name) == name
  {
    assert '/' !in name;
    SlashFreeIsLastElement(name);
    assert Base(name) == name;
    SafeIsReplacedByItself(name);
  }

  // ---- What the sanitiser makes of other names.

  predicate AllUnsafe(name: string) {
    forall i :: 0 <= i < |name| ==> !IsSafe(name[i])
  }

  predicate AllPunctuation(name: string) {
    forall i :: 0 <= i < |name| ==> IsPunctuation(name[i])
  }

  lemma {:induction false} SafeRunStays(a: string, b: string)
    requires AllSafe(a)
    ensures ReplaceUnsafe(a + b) == a + ReplaceUnsafe(b)
    decreases |a|
  {
    if a == [] {
      assert a + b == b;
    } else {
      assert (a + b)[1..] == a[1..] + b;
      SafeRunStays(a[1..], b);
    }
  }

  lemma {:induction false} DropsRun(u: string, b: string)
    requires AllUnsafe(u) && (b == [] || IsSafe(b[0]))
    ensures DropUnsafe(u + b) == b
    decreases |u|
  {
    if u == [] {
      assert u + b == b;
    } else {
      assert (u + b)[1..] == u[1..] + b;
      DropsRun(u[1..], b);
    }
  }

  lemma UnsafeRunCollapses(u: string, b: string)
    requires u != [] && AllUnsafe(u) && (b == [] || IsSafe(b[0]))
    ensures ReplaceUnsafe(u + b) == "_" + ReplaceUnsafe(b)
  {
    assert (u + b)[1..] == u[1..] + b;
    DropsRun(u[1..], b);
  }

  lemma {:induction false} TrimKeepsMiddle(left: string, middle: string, right: string)
    requires AllPunctuation(left) && AllPunctuation(right)
    requires middle != "" && !IsPunctuation(middle[0]) && !IsPunctuation(middle[|middle| - 1])
    ensures TrimRight(TrimLeft(left + middle + right)) == middle
    decreases |left| + |right|
  {
    var whole := left + middle + right;
    if left != [] {
      assert whole[1..] == left[1..] + middle + right;
      TrimKeepsMiddle(left[1..], middle, right);
    } else if right != [] {
      assert whole == middle + right && whole[0] == middle[0];
      assert whole[..|whole| - 1] == left + middle + right[..|right| - 1];
      assert (left + middle + right[..|right| - 1])[0] == middle[0];
      TrimKeepsMiddle(left, middle, right[..|right| - 1]);
    } else {
      assert whole == middle;
    }
  }

  lemma {:induction false} StripsTail(path: string, slashes: string)
    requires forall i :: 0 <= i < |slashes| ==> slashes[i] == '/'
    ensures StripSlashes(path + slashes) == StripSlashes(path)
    decreases |slashes|
  {
    if slashes == [] {
      assert path + slashes == path;
    } else {
      assert (path + slashes)[..|path + slashes| - 1] == path + slashes[..|slashes| - 1];
      StripsTail(path, slashes[..|slashes| - 1]);
    }
  }

  lemma {:induction false} LastAfterSlash(dir: string, last: string)
    requires IsSlashFree(last) && (dir == "" || dir[|dir| - 1] == '/')
    ensures LastElement(dir + last) == last
    decreases |last|
  {
    if last == [] {
      assert dir + last == dir;
    } else {
      assert last[|last| - 1] in last;
      assert (dir + last)[..|dir + last| - 1] == dir + last[..|last| - 1];
      LastAfterSlash(dir, last[..|last| - 1]);
    }
  }

  /** The base of a path is what follows its last slash, slashes at the end aside. */
  lemma BaseIsLastElement(dir: string, last: string, slashes: string)
    requires last != "" && IsSlashFree(last) && (dir == "" || dir[|dir| - 1] == '/')
    requires forall i :: 0 <= i < |slashes| ==> slashes[i] == '/'
    ensures Base(dir + last + slashes) == last
  {
    assert last[|last| - 1] in last;
    StripsTail(dir + last, slashes);
    LastAfterSlash(dir, last);
  }

  /** Directories and punctuation around a name go, and each run of unsafe characters within becomes one underscore. */
  lemma SanitiseReplacesRun(dir: string, left: string, a: string, u: string, b: string, right: string)
    requires dir == "" || dir[|dir| - 1] == '/'
    requires AllPunctuation(left) && IsClean(a) && IsClean(b) && AllPunctuation(right)
    requires u != "" && AllUnsafe(u) && IsSlashFree(u)
    ensures Sanitise(dir + (left + a + u + b + right)) == a + "_" + b
  {
    var name := left + a + u + b + right;
    assert IsSlashFree(name) by {
      assert '/' !in left && '/' !in a && '/' !in b && '/' !in right;
    }
    BaseIsLastElement(dir, name, "");
    assert dir + name + "" == dir + name;
    Regroup(left, a, u, b, right);
    RunIsReplaced(left + a, u, b + right);
    Regroup(left, a, "_", b, right);
    assert left + a + "_" + b + right == left + (a + "_" + b) + right;
    TrimKeepsMiddle(left, a + "_" + b, right);
  }

  lemma Regroup(left: string, a: string, u: string, b: string, right: string)
    ensures left + a + u + b + right == left + a + (u + (b + right))
  {
  }

  lemma RunIsReplaced(x: string, u: string, y: string)
    requires AllSafe(x) && u != "" && AllUnsafe(u) && y != "" && AllSafe(y)
    ensures ReplaceUnsafe(x + (u + y)) == x + ("_" + y)
  {
    SafeRunStays(x, u + y);
    UnsafeRunCollapses(u, y);
    SafeIsReplacedByItself(y);
  }

  lemma {:induction false} PunctuationIsTrimmed(name: string)
    requires AllPunctuation(name)
    ensures TrimLeft(name) == ""
    decreases |name|
  {
    if name != [] { PunctuationIsTrimmed(name[1..]); }
  }

  predicate HasNoLetter(name: string) {
    forall i :: 0 <= i < |name| ==> IsPunctuation(name[i]) || !IsSafe(name[i])
  }

  lemma {:induction false} DropKeepsNoLetter(name: string)
    requires HasNoLetter(name)
    ensures HasNoLetter(DropUnsafe(name))
    decreases |name|
  {
    if name != [] && !IsSafe(name[0]) { DropKeepsNoLetter(name[1..]); }
  }

  lemma {:induction false} NoLetterIsPunctuation(name: string)
    requires HasNoLetter(name)
    ensures AllPunctuation(ReplaceUnsafe(name))
    decreases |name|
  {
    if name != [] {
      DropKeepsNoLetter(name[1..]);
      NoLetterIsPunctuation(if IsSafe(name[0]) then name[1..] else DropUnsafe(name[1..]));
    }
  }

  /** A name without letters and digits becomes the default name. */
  lemma SanitiseDefaults(name: string)
    requires HasNoLetter(name) && IsSlashFree(name)
    ensures Sanitise(name) == "document"
  {
    if name != "" {
      BaseIsLastElement("", name, "");
      assert "" + name + "" == name;
    }
    NoLetterIsPunctuation(Base(name));
    PunctuationIsTrimmed(ReplaceUnsafe(Base(name)));
  }

  // ---- Injectivity.

  predicate IsSlashFree(id: string) {
    '/' !in id
  }

  lemma FirstSlash(a: string, rest: string)
    requires IsSlashFree(a)
    ensures (a + "/" + rest)[|a|] == '/'
    ensures forall i :: 0 <= i < |a| ==> (a + "/" + rest)[i] != '/'
  {
    forall i | 0 <= i < |a| ensures (a + "/" + rest)[i] != '/' {
      assert (a + "/" + rest)[i] == a[i] && a[i] in a;
    }
  }

  lemma SplitAtSlash(a: string, rest: string, b: string, rest': string)
    requires IsSlashFree(a) && IsSlashFree(b)
    requires a + "/" + rest == b + "/" + rest'
    ensures a == b && rest == rest'
  {
    var whole, whole' := a + "/" + rest, b + "/" + rest';
    FirstSlash(a, rest);
    FirstSlash(b, rest');
    assert whole[..|a|] == a && whole'[..|b|] == b;
    assert whole[|a| + 1..] == rest && whole'[|b| + 1..] == rest';
  }

  /** Slash-free ids are recovered from the key, whatever the names and whichever writer formed it. */
  lemma KeysAreInjective(d: string, v: string, name: string, d': string, v': string, name': string)
    requires IsSlashFree(d) && IsSlashFree(v) && IsSlashFree(d') && IsSlashFree(v')
    requires KeyOf(d, v, name) == KeyOf(d', v', name')
    ensures d == d' && v == v' && name == name'
  {
    var tail, tail' := "versions/" + v + "/" + name, "versions/" + v' + "/" + name';
    assert KeyOf(d, v, name) == "documents/" + (d + "/" + tail);
    assert KeyOf(d', v', name') == "documents/" + (d' + "/" + tail');
    CancelPrefix("documents/", d + "/" + tail, d' + "/" + tail');
    SplitAtSlash(d, tail, d', tail');
    assert tail == "versions/" + (v + "/" + name) && tail' == "versions/" + (v' + "/" + name');
    CancelPrefix("versions/", v + "/" + name, v' + "/" + name');
    SplitAtSlash(v, name, v', name');
  }

  lemma CancelPrefix(prefix: string, a: string, b: string)
    requires prefix + a == prefix + b
    ensures a == b
  {
    assert (prefix + a)[|prefix|..] == a && (prefix + b)[|prefix|..] == b;
  }
}
