/** Go's `path/filepath` on Unix: lexical processing of slash-separated paths. */
module FilePath {
  import opened Text

  predicate Segment(s: string) {
    s != "" && s != "." && '/' !in s
  }

  /** The segment lists `Clean` leaves: ".." only at the front, and never in a rooted path. */
  predicate Normal(rooted: bool, segs: seq<string>) {
    forall i :: 0 <= i < |segs| ==>
      Segment(segs[i]) && (segs[i] == ".." ==> !rooted && forall j :: 0 <= j < i ==> segs[j] == "..")
  }

  /** What one more path element does to the elements kept so far. */
  function Push(rooted: bool, segs: seq<string>, s: string): (r: seq<string>)
    requires Normal(rooted, segs) && '/' !in s
    ensures Normal(rooted, r)
  {
    if s == "" || s == "." then segs
    else if s != ".." then segs + [s]
    else if segs != [] && segs[|segs| - 1] != ".." then segs[..|segs| - 1]
    else if rooted then segs
    else segs + [s]
  }

  function Reduce(rooted: bool, parts: seq<string>): (segs: seq<string>)
    requires Free(parts, '/')
    ensures Normal(rooted, segs)
  {
    if parts == [] then []
    else
      var last := parts[|parts| - 1];
      assert last in parts;
      Push(rooted, Reduce(rooted, parts[..|parts| - 1]), last)
  }

  function Render(rooted: bool, segs: seq<string>): string {
    if rooted then "/" + Join(segs, '/') else if segs == [] then "." else Join(segs, '/')
  }

  /** `filepath.Clean`. */
  function Clean(path: string): string {
    if path == "" then "."
    else
      var rooted := path[0] == '/';
      Render(rooted, Reduce(rooted, Split(path, '/')))
  }

  /** Index just behind the final slash, 0 if there is none. */
  function AfterLastSlash(path: string): (n: nat)
    ensures n <= |path|
    ensures n > 0 ==> path[n - 1] == '/'
    ensures forall k :: n <= k < |path| ==> path[k] != '/'
  {
    if path == "" || path[|path| - 1] == '/' then |path| else AfterLastSlash(path[..|path| - 1])
  }

  function StripTrailingSlashes(path: string): string {
    if path != "" && path[|path| - 1] == '/' then StripTrailingSlashes(path[..|path| - 1]) else path
  }

  /** `filepath.Dir`. */
  function Dir(path: string): string {
    Clean(path[..AfterLastSlash(path)])
  }

  /** `filepath.Base`. */
  function Base(path: string): string {
    if path == "" then "."
    else
      var p := StripTrailingSlashes(path);
      var b := p[AfterLastSlash(p)..];
      if b == "" then "/" else b
  }

  /** `filepath.Join`. */
  function JoinPath(elems: seq<string>): string {
    if elems == [] then ""
    else if elems[0] == "" then JoinPath(elems[1..])
    else Clean(Join(elems, '/'))
  }

  lemma ReduceSnoc(rooted: bool, parts: seq<string>, s: string)
    requires Free(parts, '/') && '/' !in s
    ensures Free(parts + [s], '/')
    ensures Reduce(rooted, parts + [s]) == Push(rooted, Reduce(rooted, parts), s)
  {
  }

  lemma NormalSnoc(rooted: bool, init: seq<string>, last: string)
    requires Normal(rooted, init + [last])
    ensures Normal(rooted, init)
    ensures Segment(last)
    ensures Push(rooted, init, last) == init + [last]
  {
    var segs := init + [last];
    assert forall i :: 0 <= i < |init| ==> segs[i] == init[i];
    assert segs[|init|] == last;
  }

  lemma {:induction false} ReduceNormal(rooted: bool, segs: seq<string>)
    requires Normal(rooted, segs) && Free(segs, '/')
    ensures Reduce(rooted, segs) == segs
  {
    if segs != [] {
      var init, last := segs[..|segs| - 1], segs[|segs| - 1];
      assert segs == init + [last];
      NormalSnoc(rooted, init, last);
      ReduceNormal(rooted, init);
    }
  }

  lemma {:induction false} ReduceLeadingEmpty(rooted: bool, parts: seq<string>)
    requires Free(parts, '/')
    ensures Reduce(rooted, [""] + parts) == Reduce(rooted, parts)
  {
    if parts != [] {
      var n := |parts| - 1;
      ReduceLeadingEmpty(rooted, parts[..n]);
      assert ([""] + parts)[..n + 1] == [""] + parts[..n];
    }
  }

  lemma NormalIsFree(rooted: bool, segs: seq<string>)
    requires Normal(rooted, segs)
    ensures Free(segs, '/')
  {
    forall p | p in segs ensures '/' !in p {
      var i :| 0 <= i < |segs| && segs[i] == p;
      assert Segment(segs[i]);
    }
  }

  lemma RenderedStart(rooted: bool, segs: seq<string>)
    requires Normal(rooted, segs)
    ensures Render(rooted, segs) != "" && (Render(rooted, segs)[0] == '/' <==> rooted)
  {
    if !rooted && segs != [] {
      assert Segment(segs[0]);
      assert Join(segs, '/')[0] == segs[0][0];
    }
  }

  lemma ReduceTop(rooted: bool)
    ensures Reduce(rooted, Split(Render(rooted, []), '/')) == []
  {
    if rooted {
      assert "/" == "" + ['/'] + "";
      SplitConcat("", '/', "");
      assert Split("/", '/') == [""] + [""];
      ReduceSnoc(rooted, [], "");
      ReduceSnoc(rooted, [""], "");
      assert [] + [""] == [""];
    } else {
      assert Split(".", '/') == [] + ["."];
      ReduceSnoc(rooted, [], ".");
    }
  }

  /** Reading a rendered path back gives the segments it was rendered from. */
  lemma ReduceRendered(rooted: bool, segs: seq<string>)
    requires Normal(rooted, segs)
    ensures Reduce(rooted, Split(Render(rooted, segs), '/')) == segs
  {
    if segs == [] {
      ReduceTop(rooted);
    } else {
      NormalIsFree(rooted, segs);
      ReduceNormal(rooted, segs);
      SplitJoin(segs, '/');
      if rooted {
        assert Render(rooted, segs) == "" + ['/'] + Join(segs, '/');
        SplitCons("", '/', Join(segs, '/'));
        ReduceLeadingEmpty(rooted, segs);
      }
    }
  }

  lemma CleanRendered(rooted: bool, segs: seq<string>)
    requires Normal(rooted, segs)
    ensures Clean(Render(rooted, segs)) == Render(rooted, segs)
  {
    RenderedStart(rooted, segs);
    ReduceRendered(rooted, segs);
  }

  /** Every cleaned path is the rendering of a normal segment list. */
  lemma CleanIsRendered(path: string) returns (rooted: bool, segs: seq<string>)
    ensures Normal(rooted, segs) && Clean(path) == Render(rooted, segs)
  {
    if path == "" {
      rooted, segs := false, [];
    } else {
      rooted, segs := path[0] == '/', Reduce(path[0] == '/', Split(path, '/'));
    }
  }

  lemma CleanIdempotent(path: string)
    ensures Clean(Clean(path)) == Clean(path)
  {
    var rooted, segs := CleanIsRendered(path);
    CleanRendered(rooted, segs);
  }

  /** What stands in front of the last segment. */
  function Prefix(rooted: bool, init: seq<string>): string {
    if init != [] then Render(rooted, init) + "/" else if rooted then "/" else ""
  }

  lemma RenderSnoc(rooted: bool, init: seq<string>, last: string)
    requires Normal(rooted, init + [last])
    ensures Render(rooted, init + [last]) == Prefix(rooted, init) + last
  {
    if init != [] {
      JoinConcat(init, [last], '/');
    } else {
      assert init + [last] == [last];
    }
  }

  lemma LastSlashOf(prefix: string, last: string)
    requires '/' !in last && last != ""
    requires prefix == "" || prefix[|prefix| - 1] == '/'
    ensures AfterLastSlash(prefix + last) == |prefix|
    ensures Base(prefix + last) == last
  {
    var p := prefix + last;
    assert forall k :: 0 <= k < |last| ==> p[|prefix| + k] == last[k];
    assert prefix != "" ==> p[|prefix| - 1] == '/';
    assert p[|p| - 1] == last[|last| - 1];
  }

  /** Cutting the last segment off a cleaned path leaves a cleaned path, and a segment. */
  lemma DirOfRendered(rooted: bool, init: seq<string>, last: string)
    requires Normal(rooted, init + [last])
    ensures Normal(rooted, init)
    ensures Dir(Render(rooted, init + [last])) == Render(rooted, init)
    ensures Base(Render(rooted, init + [last])) == last
  {
    NormalSnoc(rooted, init, last);
    RenderSnoc(rooted, init, last);
    var prefix := Prefix(rooted, init);
    LastSlashOf(prefix, last);
    assert (prefix + last)[..|prefix|] == prefix;
    if init != [] {
      var r := Render(rooted, init);
      RenderedStart(rooted, init);
      ReduceRendered(rooted, init);
      assert prefix == r + ['/'] + "";
      SplitConcat(r, '/', "");
      ReduceSnoc(rooted, Split(r, '/'), "");
    } else if rooted {
      CleanRendered(true, []);
    }
  }

  /** Joining a cleaned directory with "/" and a segment appends the segment. */
  lemma JoinRendered(rooted: bool, init: seq<string>, last: string)
    requires Normal(rooted, init + [last])
    ensures Normal(rooted, init)
    ensures JoinPath([Render(rooted, init), "/" + last]) == Render(rooted, init + [last])
  {
    NormalSnoc(rooted, init, last);
    var r := Render(rooted, init);
    RenderedStart(rooted, init);
    ReduceRendered(rooted, init);
    var path := r + ['/'] + ("/" + last);
    assert [r, "/" + last][1..] == ["/" + last];
    assert Join([r, "/" + last], '/') == path;
    assert path[0] == r[0];
    SplitConcat(r, '/', "/" + last);
    assert "/" + last == "" + ['/'] + last;
    SplitCons("", '/', last);
    assert Split(last, '/') == [last];
    var parts := Split(r, '/');
    assert Split(path, '/') == parts + [""] + [last];
    ReduceSnoc(rooted, parts, "");
    ReduceSnoc(rooted, parts + [""], last);
  }

  // ----- Where a path leads

  /** A place reached from the start: up some levels, then down some names. */
  datatype Place = Place(up: nat, names: seq<string>)

  function Step(rooted: bool, at: Place, s: string): Place {
    if s == "" || s == "." then at
    else if s != ".." then Place(at.up, at.names + [s])
    else if at.names != [] then Place(at.up, at.names[..|at.names| - 1])
    else if rooted then at
    else Place(at.up + 1, [])
  }

  /** Following the elements of a path one by one. */
  function Walk(rooted: bool, parts: seq<string>): Place {
    if parts == [] then Place(0, [])
    else Step(rooted, Walk(rooted, parts[..|parts| - 1]), parts[|parts| - 1])
  }

  function Destination(path: string): (bool, Place) {
    var rooted := path != "" && path[0] == '/';
    (rooted, Walk(rooted, Split(path, '/')))
  }

  lemma WalkSnoc(rooted: bool, parts: seq<string>, s: string)
    ensures Walk(rooted, parts + [s]) == Step(rooted, Walk(rooted, parts), s)
  {
  }

  lemma {:induction false} WalkNormal(rooted: bool, segs: seq<string>)
    requires Normal(rooted, segs)
    ensures segs != [] && segs[|segs| - 1] == ".." ==> Walk(rooted, segs).names == []
    ensures segs == [] ==> Walk(rooted, segs) == Place(0, [])
    ensures segs != [] && segs[|segs| - 1] != ".." ==>
      Walk(rooted, segs) == Step(rooted, Walk(rooted, segs[..|segs| - 1]), segs[|segs| - 1])
  {
    if segs != [] && segs[|segs| - 1] == ".." {
      var init := segs[..|segs| - 1];
      assert segs == init + [".."];
      NormalSnoc(rooted, init, "..");
      WalkNormal(rooted, init);
    }
  }

  lemma WalkPop(rooted: bool, init: seq<string>, last: string)
    requires Normal(rooted, init + [last]) && last != ".."
    ensures Walk(rooted, init) == Step(rooted, Walk(rooted, init + [last]), "..")
  {
  }

  lemma WalkPush(rooted: bool, segs: seq<string>, s: string)
    requires Normal(rooted, segs) && '/' !in s
    ensures Walk(rooted, Push(rooted, segs, s)) == Step(rooted, Walk(rooted, segs), s)
  {
    if s == ".." && segs != [] && segs[|segs| - 1] != ".." {
      assert segs == segs[..|segs| - 1] + [segs[|segs| - 1]];
      WalkPop(rooted, segs[..|segs| - 1], segs[|segs| - 1]);
    } else {
      WalkNormal(rooted, segs);
      WalkSnoc(rooted, segs, s);
    }
  }

  lemma {:induction false} WalkReduced(rooted: bool, parts: seq<string>)
    requires Free(parts, '/')
    ensures Walk(rooted, Reduce(rooted, parts)) == Walk(rooted, parts)
  {
    if parts != [] {
      var init, last := parts[..|parts| - 1], parts[|parts| - 1];
      assert last in parts;
      WalkReduced(rooted, init);
      WalkPush(rooted, Reduce(rooted, init), last);
    }
  }

  /** Cleaning a path does not change where it leads. */
  lemma CleanKeepsDestination(path: string)
    ensures Destination(Clean(path)) == Destination(path)
  {
    var rooted := path != "" && path[0] == '/';
    var segs := Reduce(rooted, Split(path, '/'));
    RenderedStart(rooted, segs);
    ReduceRendered(rooted, segs);
    WalkReduced(rooted, Split(path, '/'));
    WalkReduced(rooted, Split(Clean(path), '/'));
  }

  function Ups(n: nat): (segs: seq<string>)
    ensures |segs| == n && forall i :: 0 <= i < n ==> segs[i] == ".."
  {
    seq(n, i requires 0 <= i < n => "..")
  }

  /** A normal segment list is what its place says: so many steps up, then the names. */
  lemma {:induction false} NormalPlace(rooted: bool, segs: seq<string>)
    requires Normal(rooted, segs)
    ensures segs == Ups(Walk(rooted, segs).up) + Walk(rooted, segs).names
  {
    if segs != [] {
      var init, last := segs[..|segs| - 1], segs[|segs| - 1];
      assert segs == init + [last];
      NormalSnoc(rooted, init, last);
      NormalPlace(rooted, init);
      WalkNormal(rooted, segs);
      if last == ".." {
        assert Walk(rooted, init).names == [] by {
          if init != [] {
            assert segs[|init| - 1] == "..";
            WalkNormal(rooted, init);
          }
        }
      }
    }
  }

  /** The cleaned path, from the place alone. */
  lemma CleanByDestination(path: string)
    ensures var (rooted, place) := Destination(path); Clean(path) == Render(rooted, Ups(place.up) + place.names)
  {
    var rooted := path != "" && path[0] == '/';
    var segs := Reduce(rooted, Split(path, '/'));
    WalkReduced(rooted, Split(path, '/'));
    NormalPlace(rooted, segs);
    if path == "" {
      assert Split("", '/') == [""];
      assert Ups(0) + [] == [];
    }
  }

  /** `Clean` is canonical: two paths are cleaned to the same one exactly if they lead to the same place from the same
      start. */
  lemma CleanIsCanonical(p: string, q: string)
    ensures Clean(p) == Clean(q) <==> Destination(p) == Destination(q)
  {
    CleanKeepsDestination(p);
    CleanKeepsDestination(q);
    CleanByDestination(p);
    CleanByDestination(q);
  }

  // ----- A directory and a name

  /** A slash at the end leads nowhere else. */
  lemma TrailingSlash(dir: string)
    requires dir != ""
    ensures Destination(dir + "/") == Destination(dir) && Clean(dir + "/") == Clean(dir)
  {
    SplitConcat(dir, '/', "");
    assert dir + "/" == dir + ['/'] + "";
    assert Split(dir + "/", '/') == Split(dir, '/') + [""];
    var rooted := dir[0] == '/';
    WalkSnoc(rooted, Split(dir, '/'), "");
    CleanIsCanonical(dir + "/", dir);
  }

  /** The directory and the base of a path joined by a slash are the two, the directory cleaned. */
  lemma DirAndBase(dir: string, name: string)
    requires dir != "" && name != "" && '/' !in name
    ensures Dir(dir + "/" + name) == Clean(dir) && Base(dir + "/" + name) == name
  {
    assert dir + "/" + name == (dir + "/") + name;
    LastSlashOf(dir + "/", name);
    assert (dir + "/" + name)[..|dir| + 1] == dir + "/";
    TrailingSlash(dir);
  }

  // ----- What the elements of a path do

  predicate Ordinary(name: string) {
    name != "" && name != "." && name != ".." && '/' !in name
  }

  lemma WalkTwo(rooted: bool, parts: seq<string>, name: string)
    requires Ordinary(name)
    ensures Walk(rooted, parts + [name, ".."]) == Walk(rooted, parts)
  {
    assert parts + [name, ".."] == (parts + [name]) + [".."];
    WalkSnoc(rooted, parts + [name], "..");
    WalkSnoc(rooted, parts, name);
  }

  lemma SplitOne(s: string)
    requires '/' !in s
    ensures Split(s, '/') == [s]
  {
    assert Join([s], '/') == s;
    SplitJoin([s], '/');
  }

  lemma Regrouped(a: string, b: string, c: string)
    ensures a + "/" + b + "/" + c == a + ['/'] + (b + ['/'] + c)
  {
  }

  lemma DetourParts(dir: string, name: string)
    requires Ordinary(name)
    ensures Split(dir + "/" + name + "/..", '/') == Split(dir, '/') + [name, ".."]
  {
    Regrouped(dir, name, "..");
    assert dir + "/" + name + "/.." == dir + "/" + name + "/" + "..";
    SplitConcat(dir, '/', name + ['/'] + "..");
    SplitConcat(name, '/', "..");
    SplitOne(name);
    SplitOne("..");
  }

  /** Going into a directory and back out leads nowhere else. */
  lemma DetoursVanish(dir: string, name: string)
    requires dir != "" && Ordinary(name)
    ensures Clean(dir + "/" + name + "/..") == Clean(dir)
  {
    DetourParts(dir, name);
    WalkTwo(dir[0] == '/', Split(dir, '/'), name);
    CleanIsCanonical(dir + "/" + name + "/..", dir);
  }

  /** Nor does ".". */
  lemma DotVanishes(dir: string)
    requires dir != ""
    ensures Clean(dir + "/.") == Clean(dir)
  {
    assert dir + "/." == dir + ['/'] + ".";
    SplitConcat(dir, '/', ".");
    SplitOne(".");
    WalkSnoc(dir[0] == '/', Split(dir, '/'), ".");
    CleanIsCanonical(dir + "/.", dir);
  }

  /** The root is its own parent. */
  lemma RootParent(path: string)
    requires path == "/" + ".."
    ensures Clean(path) == "/"
  {
    assert path == "" + ['/'] + "..";
    SplitConcat("", '/', "..");
    SplitOne("..");
    SplitOne("");
    assert Split(path, '/') == [""] + [".."];
    ReduceSnoc(true, [], "");
    ReduceSnoc(true, [""], "..");
    assert [] + [""] == [""];
  }

  /** A relative path may lead up; the empty path is where one is. */
  lemma RelativeTops()
    ensures Clean("..") == ".." && Clean("") == "."
  {
    SplitOne("..");
    ReduceSnoc(false, [], "..");
    assert [] + [".."] == [".."];
  }

  /** An ordinary name behind a cleaned path stays behind it. */
  lemma NameStays(dir: string, name: string)
    requires Clean(dir) == dir && dir != "/" && dir != "." && Ordinary(name)
    ensures Clean(dir + "/" + name) == dir + "/" + name
  {
    var rooted, segs := CleanIsRendered(dir);
    if segs == [] {
      assert false;
    }
    RenderSnoc(rooted, segs, name);
    CleanRendered(rooted, segs + [name]);
  }

  // ----- Base, directory and join at their edges

  lemma StrippedSlash(path: string)
    ensures StripTrailingSlashes(path + "/") == StripTrailingSlashes(path)
  {
    assert (path + "/")[..|path|] == path;
  }

  /** Trailing slashes do not count; nothing but slashes is the root. */
  lemma BaseEdges(path: string)
    requires path != ""
    ensures Base(path + "/") == Base(path)
    ensures StripTrailingSlashes(path) == "" ==> Base(path) == "/"
  {
    StrippedSlash(path);
  }

  lemma SingleName(name: string)
    requires name != "" && '/' !in name
    ensures Base(name) == name && Dir(name) == "."
  {
    LastSlashOf("", name);
    assert "" + name == name;
  }

  lemma TopName(name: string)
    requires name != "" && '/' !in name
    ensures Base("/" + name) == name && Dir("/" + name) == "/"
  {
    LastSlashOf("/", name);
    assert ("/" + name)[..1] == "/";
    CleanRendered(true, []);
  }

  /** Joining leaves out leading empty elements, and joins the others by slashes. */
  lemma JoinMeans(a: string, b: string, c: string)
    ensures JoinPath([]) == "" && JoinPath(["", a]) == JoinPath([a])
    ensures a != "" ==> JoinPath([a]) == Clean(a) && JoinPath([a, b]) == Clean(a + "/" + b)
    ensures a != "" ==> JoinPath([a, b, c]) == Clean(a + "/" + b + "/" + c)
  {
    assert ["", a][1..] == [a];
    assert [a, b][1..] == [b] && [a, b, c][1..] == [b, c] && [b, c][1..] == [c];
    assert Join([a, b], '/') == a + "/" + b;
    assert Join([b, c], '/') == b + "/" + c;
    assert a + ['/'] + (b + "/" + c) == a + "/" + b + "/" + c;
  }
}
