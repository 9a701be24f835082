/** The lexical path functions of Go's `path/filepath` on a Unix host,
    as `getAuth` uses them to place a relative SSH key under the home
    directory: `Join` joins its non-empty arguments with `/` and cleans
    the result with `Clean`, which drops empty and `.` elements and
    resolves `..` against the element before it. */
module FilePath {

  /** An element that `Clean` keeps as it is. */
  predicate Plain(e: string) {
    e != "" && e != "." && e != ".." && '/' !in e
  }

  /** The elements of `cur + s` between slashes, where `cur` is the part
      of the current element already read and holds no slash. */
  function SplitFrom(s: string, cur: string): (r: seq<string>)
    ensures |r| >= 1
    decreases |s|
  {
    if |s| == 0 then [cur]
    else if s[0] == '/' then [cur] + SplitFrom(s[1..], "")
    else SplitFrom(s[1..], cur + [s[0]])
  }

  /** The elements of `s` between slashes, as `strings.Split(s, "/")`
      yields them (so an empty string has one empty element). */
  function Split(s: string): seq<string> {
    SplitFrom(s, "")
  }

  /** `strings.Join(elems, "/")`. */
  function JoinSlash(elems: seq<string>): string
    decreases |elems|
  {
    if |elems| == 0 then ""
    else if |elems| == 1 then elems[0]
    else elems[0] + "/" + JoinSlash(elems[1..])
  }

  /** One step of `Clean` on the resolved elements so far. Elements named
      `..` only ever form a prefix of `stack`. */
  function CleanStep(stack: seq<string>, e: string, rooted: bool): seq<string> {
    if e == "" || e == "." then stack
    else if e == ".." then
      if |stack| > 0 && stack[|stack| - 1] != ".." then stack[..|stack| - 1]
      else if rooted then stack
      else stack + [".."]
    else stack + [e]
  }

  /** `CleanStep` over all of `elems`, left to right. */
  function Resolve(elems: seq<string>, stack: seq<string>, rooted: bool): seq<string>
    decreases |elems|
  {
    if |elems| == 0 then stack
    else Resolve(elems[1..], CleanStep(stack, elems[0], rooted), rooted)
  }

  /** `filepath.Clean`. */
  function Clean(path: string): string {
    if path == "" then "."
    else
      var rooted := path[0] == '/';
      var body := JoinSlash(Resolve(Split(path), [], rooted));
      var cleaned := if rooted then "/" + body else body;
      if cleaned == "" then "." else cleaned
  }

  /** `filepath.Join`: empty leading arguments are skipped; if all are
      empty the result is empty, otherwise the rest are joined and cleaned. */
  function Join(elems: seq<string>): string
    decreases |elems|
  {
    if |elems| == 0 then ""
    else if elems[0] == "" then Join(elems[1..])
    else Clean(JoinSlash(elems))
  }

  /** A rooted path already in the form `Clean` produces, other than `/`. */
  predicate CleanAbsolute(p: string) {
    && |p| > 1
    && p[0] == '/'
    && forall i :: 0 <= i < |Split(p[1..])| ==> Plain(Split(p[1..])[i])
  }

  /** A non-empty relative path already in the form `Clean` produces. */
  predicate CleanRelative(p: string) {
    forall i :: 0 <= i < |Split(p)| ==> Plain(Split(p)[i])
  }

  /** `SplitFrom` of a string given by its first character. */
  lemma SplitFromCons(c: char, s: string, cur: string)
    ensures SplitFrom([c] + s, cur) == if c == '/' then [cur] + SplitFrom(s, "")
                                       else SplitFrom(s, cur + [c])
  {
  }

  /** Splitting and re-joining gives the path back. */
  lemma {:induction false} JoinSplitFrom(s: string, cur: string)
    ensures JoinSlash(SplitFrom(s, cur)) == cur + s
    decreases |s|
  {
    if |s| > 0 {
      var c := s[0];
      assert s == [c] + s[1..];
      SplitFromCons(c, s[1..], cur);
      JoinSplitFrom(s[1..], if c == '/' then "" else cur + [c]);
      if c == '/' {
        var rest := SplitFrom(s[1..], "");
        assert JoinSlash([cur] + rest) == cur + "/" + JoinSlash(rest) by {
          assert ([cur] + rest)[1..] == rest;
        }
      }
    }
  }

  /** Splitting and re-joining gives the path back. */
  lemma JoinSplitRoundTrip(s: string)
    ensures JoinSlash(Split(s)) == s
  {
    JoinSplitFrom(s, "");
  }

  /** Splitting a slash-free string yields it whole. */
  lemma {:induction false} SplitFromNoSlash(s: string, cur: string)
    requires '/' !in s
    ensures SplitFrom(s, cur) == [cur + s]
    decreases |s|
  {
    if |s| > 0 {
      assert s == [s[0]] + s[1..];
      assert s[0] in s;
      assert '/' !in s[1..] by {
        forall k | 0 <= k < |s[1..]| ensures s[1..][k] != '/' {
          assert s[1..][k] in s;
        }
      }
      SplitFromCons(s[0], s[1..], cur);
      SplitFromNoSlash(s[1..], cur + [s[0]]);
      assert cur + [s[0]] + s[1..] == cur + s;
    } else {
      assert cur + s == cur;
    }
  }

  /** A string without slashes is a single element. */
  lemma SplitNoSlash(s: string)
    requires '/' !in s
    ensures Split(s) == [s]
  {
    SplitFromNoSlash(s, "");
    assert "" + s == s;
  }

  /** No element of a split contains a slash. */
  lemma {:induction false} SplitFromSlashFree(s: string, cur: string)
    requires '/' !in cur
    ensures forall i :: 0 <= i < |SplitFrom(s, cur)| ==> '/' !in SplitFrom(s, cur)[i]
    decreases |s|
  {
    if |s| > 0 {
      var c := s[0];
      assert s == [c] + s[1..];
      SplitFromCons(c, s[1..], cur);
      if c == '/' {
        SplitFromSlashFree(s[1..], "");
      } else {
        SplitFromSlashFree(s[1..], cur + [c]);
      }
    }
  }

  /** No element of a split contains a slash. */
  lemma SplitSlashFree(s: string)
    ensures forall i :: 0 <= i < |Split(s)| ==> '/' !in Split(s)[i]
  {
    SplitFromSlashFree(s, "");
  }

  /** Splitting distributes over a slash. */
  lemma {:induction false} SplitFromAtSlash(a: string, b: string, cur: string)
    ensures SplitFrom(a + "/" + b, cur) == SplitFrom(a, cur) + SplitFrom(b, "")
    decreases |a|
  {
    if |a| == 0 {
      assert a + "/" + b == ['/'] + b;
      SplitFromCons('/', b, cur);
    } else {
      var c := a[0];
      assert a == [c] + a[1..];
      assert a + "/" + b == [c] + (a[1..] + "/" + b);
      SplitFromCons(c, a[1..] + "/" + b, cur);
      SplitFromCons(c, a[1..], cur);
      if c == '/' {
        SplitFromAtSlash(a[1..], b, "");
      } else {
        SplitFromAtSlash(a[1..], b, cur + [c]);
      }
    }
  }

  /** Splitting distributes over a slash. */
  lemma SplitAtSlash(a: string, b: string)
    ensures Split(a + "/" + b) == Split(a) + Split(b)
  {
    SplitFromAtSlash(a, b, "");
  }

  /** Joining a concatenation puts one slash between the two joins. */
  lemma {:induction false} JoinSlashAppend(xs: seq<string>, ys: seq<string>)
    requires |xs| >= 1 && |ys| >= 1
    ensures JoinSlash(xs + ys) == JoinSlash(xs) + "/" + JoinSlash(ys)
    decreases |xs|
  {
    if |xs| == 1 {
      assert (xs + ys)[1..] == ys;
    } else {
      assert (xs + ys)[1..] == xs[1..] + ys;
      JoinSlashAppend(xs[1..], ys);
    }
  }

  /** `Clean` keeps plain elements in place. */
  lemma {:induction false} ResolvePlain(elems: seq<string>, stack: seq<string>, rooted: bool)
    requires forall i :: 0 <= i < |elems| ==> Plain(elems[i])
    ensures Resolve(elems, stack, rooted) == stack + elems
    decreases |elems|
  {
    if |elems| > 0 {
      ResolvePlain(elems[1..], stack + [elems[0]], rooted);
      assert stack + [elems[0]] + elems[1..] == stack + elems;
    }
  }

  /** `Resolve` over a concatenation resolves the second part from where
      the first left off. */
  lemma {:induction false} ResolveAppend(xs: seq<string>, ys: seq<string>, stack: seq<string>, rooted: bool)
    ensures Resolve(xs + ys, stack, rooted) == Resolve(ys, Resolve(xs, stack, rooted), rooted)
    decreases |xs|
  {
    if |xs| > 0 {
      assert (xs + ys)[0] == xs[0];
      assert (xs + ys)[1..] == xs[1..] + ys;
      ResolveAppend(xs[1..], ys, CleanStep(stack, xs[0], rooted), rooted);
    } else {
      assert xs + ys == ys;
    }
  }

  /** Every element `Clean` keeps is non-empty and slash-free. */
  lemma {:induction false} ResolveElements(elems: seq<string>, stack: seq<string>, rooted: bool)
    requires forall i :: 0 <= i < |elems| ==> '/' !in elems[i]
    requires forall i :: 0 <= i < |stack| ==> stack[i] != "" && '/' !in stack[i]
    ensures forall i :: 0 <= i < |Resolve(elems, stack, rooted)| ==>
              Resolve(elems, stack, rooted)[i] != "" && '/' !in Resolve(elems, stack, rooted)[i]
    decreases |elems|
  {
    if |elems| > 0 {
      var next := CleanStep(stack, elems[0], rooted);
      assert forall i :: 0 <= i < |next| ==> next[i] != "" && '/' !in next[i] by {
        forall i | 0 <= i < |next| ensures next[i] != "" && '/' !in next[i] {
          if i < |stack| && (|next| <= |stack| || next == stack + [elems[0]] || next == stack + [".."]) {
            assert next[i] == stack[i];
          }
        }
      }
      assert forall i :: 0 <= i < |elems[1..]| ==> '/' !in elems[1..][i] by {
        forall i | 0 <= i < |elems[1..]| ensures '/' !in elems[1..][i] {
          assert elems[1..][i] == elems[i + 1];
        }
      }
      ResolveElements(elems[1..], next, rooted);
      assert Resolve(elems, stack, rooted) == Resolve(elems[1..], next, rooted);
    }
  }

  /** A join of elements whose first is non-empty starts with that
      element's first character. */
  lemma JoinSlashHead(xs: seq<string>)
    requires |xs| > 0 && xs[0] != ""
    ensures |JoinSlash(xs)| > 0 && JoinSlash(xs)[0] == xs[0][0]
  {
  }

  /** A cleaned path is never empty, and it is rooted exactly when the
      input was: cleaning never turns a relative path into an absolute
      one or the reverse. */
  lemma CleanKeepsRoot(path: string)
    ensures Clean(path) != ""
    ensures Clean(path)[0] == '/' <==> path != "" && path[0] == '/'
  {
    if path != "" && path[0] != '/' {
      var stack := Resolve(Split(path), [], false);
      SplitSlashFree(path);
      ResolveElements(Split(path), [], false);
      if |stack| > 0 {
        JoinSlashHead(stack);
        assert stack[0][0] in stack[0];
      }
    }
  }

  /** A rooted path is cleaned to a slash and its resolved elements. */
  lemma CleanRooted(p: string)
    requires p != "" && p[0] == '/'
    ensures Clean(p) == "/" + JoinSlash(Resolve(Split(p), [], true))
  {
  }

  /** The elements of the joined `home`, `.ssh` and `key`, for a rooted
      `home`: an empty one for the root, then those of the rest of
      `home`, `.ssh` and those of `key`. */
  lemma SplitKeyUnderHome(home: string, key: string)
    requires home != "" && home[0] == '/'
    ensures JoinSlash([home, ".ssh", key]) != ""
    ensures JoinSlash([home, ".ssh", key])[0] == '/'
    ensures Split(JoinSlash([home, ".ssh", key])) == [""] + Split(home[1..]) + ([".ssh"] + Split(key))
  {
    var tail := ".ssh" + "/" + key;
    assert [home, ".ssh", key][1..] == [".ssh", key];
    assert [".ssh", key][1..] == [key];
    assert JoinSlash([key]) == key;
    assert JoinSlash([".ssh", key]) == tail;
    var p := JoinSlash([home, ".ssh", key]);
    assert home == "/" + home[1..];
    assert p == "" + "/" + (home[1..] + "/" + tail);
    SplitAtSlash("", home[1..] + "/" + tail);
    SplitAtSlash(home[1..], tail);
    SplitAtSlash(".ssh", key);
    SplitNoSlash(".ssh");
  }

  /** Re-joining the elements of a rooted `home` (past its root), `.ssh`
      and the elements of `key` gives the path they came from. */
  lemma JoinKeyElements(home: string, key: string)
    requires home != "" && home[0] == '/'
    ensures JoinSlash(Split(home[1..]) + ([".ssh"] + Split(key))) == home[1..] + "/" + (".ssh" + "/" + key)
  {
    var hs := Split(home[1..]);
    var ks := Split(key);
    JoinSlashAppend(hs, [".ssh"] + ks);
    JoinSlashAppend([".ssh"], ks);
    assert JoinSlash([".ssh"]) == ".ssh";
    JoinSplitRoundTrip(home[1..]);
    JoinSplitRoundTrip(key);
  }

  /** The elements of a clean `home` (past its root), `.ssh` and those of
      a clean `key` are all plain. */
  lemma PlainKeyElements(home: string, key: string)
    requires CleanAbsolute(home)
    requires CleanRelative(key)
    ensures var elems := Split(home[1..]) + ([".ssh"] + Split(key));
            forall i :: 0 <= i < |elems| ==> Plain(elems[i])
  {
  }

  /** Resolving a rooted path whose elements past the root are plain
      keeps them all. */
  lemma ResolveRootedPlain(p: string, elems: seq<string>)
    requires Split(p) == [""] + elems
    requires forall i :: 0 <= i < |elems| ==> Plain(elems[i])
    ensures Resolve(Split(p), [], true) == elems
  {
    ResolveAppend([""], elems, [], true);
    assert Resolve([""], [], true) == [];
    ResolvePlain(elems, [], true);
    assert [] + elems == elems;
  }

  /** Cleaning the joined clean `home`, `.ssh` and clean `key` keeps
      every element. */
  lemma ResolveKeyUnderHome(home: string, key: string)
    requires CleanAbsolute(home)
    requires CleanRelative(key)
    ensures Resolve(Split(JoinSlash([home, ".ssh", key])), [], true)
            == Split(home[1..]) + ([".ssh"] + Split(key))
  {
    var elems := Split(home[1..]) + ([".ssh"] + Split(key));
    SplitKeyUnderHome(home, key);
    assert Split(JoinSlash([home, ".ssh", key])) == [""] + elems;
    PlainKeyElements(home, key);
    ResolveRootedPlain(JoinSlash([home, ".ssh", key]), elems);
  }

  /** For a home directory and a key path that are both already clean,
      joining `home`, `.ssh` and `key` is plain concatenation. */
  lemma JoinUnderHome(home: string, key: string)
    requires CleanAbsolute(home)
    requires CleanRelative(key)
    ensures Join([home, ".ssh", key]) == home + "/.ssh/" + key
  {
    var p := JoinSlash([home, ".ssh", key]);
    assert Join([home, ".ssh", key]) == Clean(p);
    SplitKeyUnderHome(home, key);
    ResolveKeyUnderHome(home, key);
    CleanRooted(p);
    JoinKeyElements(home, key);
    var h := home[1..];
    assert home == "/" + h;
    assert "/" + (h + "/" + (".ssh" + "/" + key)) == home + "/.ssh/" + key;
  }

  /** Resolving a root, plain elements `hs`, `.ssh`, `..` and a plain
      `name` drops `.ssh` together with the `..`. */
  lemma ResolveParentKey(hs: seq<string>, name: string)
    requires forall i :: 0 <= i < |hs| ==> Plain(hs[i])
    requires Plain(name)
    ensures Resolve([""] + hs + [".ssh", "..", name], [], true) == hs + [name]
  {
    ResolveAppend([""] + hs, [".ssh", "..", name], [], true);
    ResolveAppend([""], hs, [], true);
    assert Resolve([""], [], true) == [];
    ResolvePlain(hs, [], true);
    assert [] + hs == hs;
    assert CleanStep(hs, ".ssh", true) == hs + [".ssh"];
    assert (hs + [".ssh"])[..|hs|] == hs;
    assert CleanStep(hs + [".ssh"], "..", true) == hs;
    assert [".ssh", "..", name][1..] == ["..", name];
    assert ["..", name][1..] == [name];
    assert [name][1..] == [];
    calc {
      Resolve([".ssh", "..", name], hs, true);
      Resolve(["..", name], hs + [".ssh"], true);
      Resolve([name], hs, true);
      Resolve([], hs + [name], true);
    }
  }

  /** The elements of the joined `home`, `.ssh` and `../name`. */
  lemma SplitParentKey(home: string, name: string)
    requires home != "" && home[0] == '/'
    requires Plain(name)
    ensures Split(JoinSlash([home, ".ssh", "../" + name])) == [""] + Split(home[1..]) + [".ssh", "..", name]
  {
    var key := "../" + name;
    SplitKeyUnderHome(home, key);
    assert key == ".." + "/" + name;
    SplitAtSlash("..", name);
    SplitNoSlash("..");
    SplitNoSlash(name);
    assert Split(key) == ["..", name];
  }

  /** Cleaning the joined clean `home`, `.ssh` and `../name` keeps the
      elements of `home` and `name`. */
  lemma ResolveParentKeyUnderHome(home: string, name: string)
    requires CleanAbsolute(home)
    requires Plain(name)
    ensures Resolve(Split(JoinSlash([home, ".ssh", "../" + name])), [], true)
            == Split(home[1..]) + [name]
  {
    SplitParentKey(home, name);
    ResolveParentKey(Split(home[1..]), name);
  }

  /** A relative key `../name` is cleaned out of `.ssh`: the joined
      path is `home/name`, not the plain concatenation. */
  lemma ParentKeyLeavesSshDir(home: string, name: string)
    requires CleanAbsolute(home)
    requires Plain(name)
    ensures Join([home, ".ssh", "../" + name]) == home + "/" + name
    ensures Join([home, ".ssh", "../" + name]) != home + "/.ssh/" + "../" + name
  {
    var hs := Split(home[1..]);
    var p := JoinSlash([home, ".ssh", "../" + name]);
    assert Join([home, ".ssh", "../" + name]) == Clean(p);
    SplitKeyUnderHome(home, "../" + name);
    ResolveParentKeyUnderHome(home, name);
    CleanRooted(p);
    JoinSlashAppend(hs, [name]);
    JoinSplitRoundTrip(home[1..]);
    assert home == "/" + home[1..];
    assert |home + "/.ssh/" + "../" + name| > |home + "/" + name|;
  }
}
