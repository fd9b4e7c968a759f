/**
 * Lexical path handling of Go's `path/filepath` on a Unix host:
 * `Clean` and the two-element `Join` the action uses to name its output directories.
 */
module Paths {
  import opened Strings

  /** An element that names a directory entry, as opposed to "", "." or "..". */
  predicate IsNormalElement(e: string)
  {
    e != "" && e != "." && e != ".."
  }

  /**
   * Go's lexical clean-up of the elements after `done`: empty and "." elements vanish,
   * ".." removes the element before it when that is a name, and a ".." that cannot
   * go further up is kept on a relative path and dropped on a rooted one.
   */
  function CleanElements(done: seq<string>, todo: seq<string>, rooted: bool): seq<string>
    decreases |todo|
  {
    if todo == [] then done
    else
      var e := todo[0];
      if e == "" || e == "." then CleanElements(done, todo[1..], rooted)
      else if e == ".." then
        if done != [] && done[|done| - 1] != ".." then CleanElements(done[..|done| - 1], todo[1..], rooted)
        else if rooted then CleanElements(done, todo[1..], rooted)
        else CleanElements(done + [".."], todo[1..], rooted)
      else CleanElements(done + [e], todo[1..], rooted)
  }

  /** `filepath.Clean(path)`. */
  function Clean(path: string): (r: string)
    ensures r != ""
  {
    if path == "" then "."
    else
      var rooted := path[0] == '/';
      var cleaned := (if rooted then "/" else "") + Join(CleanElements([], Split(path, '/'), rooted), '/');
      if cleaned == "" then "." else cleaned
  }

  /** `filepath.Join(a, b)`: empty elements are ignored and the result is cleaned. */
  function Join2(a: string, b: string): (r: string)
    ensures r == "" <==> a == "" && b == ""
  {
    if a != "" then Clean(a + "/" + b)
    else if b != "" then Clean(b)
    else ""
  }

  /** Elements that are all names pass through the clean-up unchanged. */
  lemma {:induction false} CleanElementsKeepsNames(done: seq<string>, todo: seq<string>, rooted: bool)
    requires forall i :: 0 <= i < |todo| ==> IsNormalElement(todo[i])
    ensures CleanElements(done, todo, rooted) == done + todo
    decreases |todo|
  {
    if todo != [] {
      CleanElementsKeepsNames(done + [todo[0]], todo[1..], rooted);
      assert done + [todo[0]] + todo[1..] == done + todo;
    }
  }

  /** A relative path made of names only is already clean. */
  lemma CleanKeepsPlainPath(elements: seq<string>)
    requires |elements| >= 1
    requires forall i :: 0 <= i < |elements| ==> IsNormalElement(elements[i]) && '/' !in elements[i]
    ensures Clean(Join(elements, '/')) == Join(elements, '/')
  {
    var path := Join(elements, '/');
    JoinStartsWithFirst(elements, '/');
    assert path != "" && path[0] != '/';
    SplitJoin(elements, '/');
    CleanElementsKeepsNames([], elements, false);
    assert CleanElements([], Split(path, '/'), false) == elements;
  }

  /** Joining a plain directory with a plain name puts exactly one slash between them. */
  lemma Join2Plain(dir: string, name: string)
    requires IsNormalElement(dir) && '/' !in dir
    requires IsNormalElement(name) && '/' !in name
    ensures Join2(dir, name) == dir + "/" + name
  {
    var elements := [dir, name];
    assert Join(elements, '/') == dir + "/" + name;
    CleanKeepsPlainPath(elements);
  }

  /** Joining onto an empty directory leaves a plain name as it is. */
  lemma Join2EmptyDirectory(name: string)
    requires IsNormalElement(name) && '/' !in name
    ensures Join2("", name) == name
  {
    assert Join([name], '/') == name;
    CleanKeepsPlainPath([name]);
  }

  /** Joining a plain name onto a plain two-level directory puts one slash between each. */
  lemma Join2PlainUnder(dir: string, sub: string, name: string)
    requires IsNormalElement(dir) && '/' !in dir
    requires IsNormalElement(sub) && '/' !in sub
    requires IsNormalElement(name) && '/' !in name
    ensures Join2(dir + "/" + sub, name) == dir + "/" + sub + "/" + name
  {
    var elements := [dir, sub, name];
    assert Join(elements, '/') == dir + "/" + sub + "/" + name by {
      assert Join(elements[2..], '/') == name;
      assert Join(elements[1..], '/') == sub + "/" + name;
    }
    CleanKeepsPlainPath(elements);
  }
}
