// The per-component styler: a path is walked one component at a time, and
// every prefix of the path is styled as a path of its own.

module Components {
  import opened Wrappers
  import opened Text
  import opened Styles

  /** One component of a path, as Rust's `std::path::Component` splits it. */
  datatype Component = Prefix(prefix: string) | RootDir | CurDir | ParentDir | Normal(name: string)

  /** The platform's path separator (unix). */
  const MainSeparator: char := '/'

  /** The text of a component on its own (`as_os_str`). */
  function ComponentText(c: Component): string
  {
    match c
    case Prefix(s) => s
    case RootDir => [MainSeparator]
    case CurDir => "."
    case ParentDir => ".."
    case Normal(s) => s
  }

  /** Whether the text of `c` gets a separator when more components follow. */
  predicate TakesSeparator(c: Component)
  {
    !c.Prefix? && !c.RootDir?
  }

  /**
   * The text of an item: the component, followed by the separator when more
   * components follow, except after a prefix (always followed by the root)
   * and after the root (a separator already).
   */
  function Label(c: Component, more: bool): string
  {
    if more && TakesSeparator(c) then ComponentText(c) + [MainSeparator] else ComponentText(c)
  }

  /** An item of the iteration: the text and the style of one component. */
  type Item = (string, Option<Style>)

  /**
   * The items still to come when the components `done` have been yielded and
   * `rest` remain: each is labelled, and styled by `styleFor` of the path up
   * to and including it.
   */
  function Items(styleFor: seq<Component> -> Option<Style>, done: seq<Component>, rest: seq<Component>): seq<Item>
    decreases |rest|
  {
    if |rest| == 0 then []
    else [(Label(rest[0], |rest| > 1), styleFor(done + [rest[0]]))] + Items(styleFor, done + [rest[0]], rest[1..])
  }

  /** The items of a whole path. */
  function PathItems(styleFor: seq<Component> -> Option<Style>, path: seq<Component>): seq<Item>
  {
    Items(styleFor, [], path)
  }

  /**
   * Item `k` is component `k`, labelled by whether it is the last, and styled
   * by the path of the first `k + 1` components; there is one item per
   * component.
   */
  lemma {:induction false} ItemsAt(styleFor: seq<Component> -> Option<Style>, done: seq<Component>, rest: seq<Component>)
    ensures |Items(styleFor, done, rest)| == |rest|
    ensures forall k :: 0 <= k < |rest| ==>
      Items(styleFor, done, rest)[k] == (Label(rest[k], k + 1 < |rest|), styleFor(done + rest[..k + 1]))
    decreases |rest|
  {
    if |rest| > 0 {
      var tail := Items(styleFor, done + [rest[0]], rest[1..]);
      ItemsAt(styleFor, done + [rest[0]], rest[1..]);
      forall k | 0 <= k < |rest|
        ensures Items(styleFor, done, rest)[k] == (Label(rest[k], k + 1 < |rest|), styleFor(done + rest[..k + 1]))
      {
        if k > 0 {
          assert Items(styleFor, done, rest)[k] == tail[k - 1];
          assert done + [rest[0]] + rest[1..][..k] == done + rest[..k + 1];
        } else {
          assert done + [rest[0]] == done + rest[..1];
        }
      }
    }
  }

  /** For a whole path: item `k` is styled by the path of its first `k + 1` components. */
  lemma PathItemsAt(styleFor: seq<Component> -> Option<Style>, path: seq<Component>, k: nat)
    requires k < |path|
    ensures |PathItems(styleFor, path)| == |path|
    ensures PathItems(styleFor, path)[k] == (Label(path[k], k + 1 < |path|), styleFor(path[..k + 1]))
  {
    ItemsAt(styleFor, [], path);
    assert [] + path[..k + 1] == path[..k + 1];
  }

  /** The texts of the items, concatenated. */
  function Texts(items: seq<Item>): string
    decreases |items|
  {
    if |items| == 0 then [] else items[0].0 + Texts(items[1..])
  }

  /**
   * For a path of normal components (such as `foo/bar/test.md`), the texts
   * of the items put together give the names joined by the separator: the
   * separators are all painted, each in the style of the component before it.
   */
  lemma {:induction false} NormalTexts(styleFor: seq<Component> -> Option<Style>, done: seq<Component>, rest: seq<Component>, names: seq<string>)
    requires |rest| >= 1 && |names| == |rest|
    requires forall k :: 0 <= k < |rest| ==> rest[k] == Normal(names[k])
    ensures Texts(Items(styleFor, done, rest)) == Join(names, MainSeparator)
    decreases |rest|
  {
    if |rest| == 1 {
      assert Items(styleFor, done, rest) == [(names[0], styleFor(done + [rest[0]]))];
      assert Texts([(names[0], styleFor(done + [rest[0]]))][1..]) == [];
    } else {
      NormalTexts(styleFor, done + [rest[0]], rest[1..], names[1..]);
      var items := Items(styleFor, done, rest);
      assert items[1..] == Items(styleFor, done + [rest[0]], rest[1..]);
    }
  }

  /** `foo/bar/test.md` yields `foo/`, `bar/` and `test.md`, styled by `foo`, `foo/bar` and the whole path. */
  lemma FooBarExample(styleFor: seq<Component> -> Option<Style>, path: seq<Component>)
    requires path == [Normal("foo"), Normal("bar"), Normal("test.md")]
    ensures PathItems(styleFor, path) == [
      ("foo/", styleFor(path[..1])),
      ("bar/", styleFor(path[..2])),
      ("test.md", styleFor(path))]
  {
    PathItemsAt(styleFor, path, 0);
    PathItemsAt(styleFor, path, 1);
    PathItemsAt(styleFor, path, 2);
    assert Label(path[0], true) == "foo/" && Label(path[1], true) == "bar/";
    assert path[..3] == path;
  }

  /** `/usr`: the root is already a separator and gets none of its own. */
  lemma RootExample(styleFor: seq<Component> -> Option<Style>, path: seq<Component>)
    requires path == [RootDir, Normal("usr")]
    ensures PathItems(styleFor, path) == [("/", styleFor(path[..1])), ("usr", styleFor(path))]
  {
    PathItemsAt(styleFor, path, 0);
    PathItemsAt(styleFor, path, 1);
    assert path[..2] == path;
  }

  /**
   * `StyledComponents`: the path built so far, the components still to come
   * and the style lookup for a path (`LsColors::style_for_path`, whose
   * metadata comes from the file system).
   */
  class StyledComponents {
    const styleFor: seq<Component> -> Option<Style>
    var componentPath: seq<Component>
    var components: seq<Component>

    /** `LsColors::style_for_path_components`: nothing walked yet, the whole path to come. */
    constructor (styleFor: seq<Component> -> Option<Style>, path: seq<Component>)
      ensures this.styleFor == styleFor
      ensures componentPath == [] && components == path
    {
      this.styleFor := styleFor;
      componentPath := [];
      components := path;
    }

    /** The items the iteration yields from here on. */
    function Remaining(): seq<Item>
      reads this
    {
      Items(styleFor, componentPath, components)
    }

    /**
     * `Iterator::next`: the next item, or `None` at the end. The component
     * moves from the components to come onto the path built so far, and the
     * item is the first of those that remained.
     */
    method Next() returns (item: Option<Item>)
      modifies this
      ensures old(components) == [] ==> item == None && componentPath == old(componentPath) && components == []
      ensures old(components) != [] ==>
        && item == Some(old(Remaining())[0])
        && componentPath == old(componentPath) + [old(components)[0]]
        && components == old(components)[1..]
      ensures item.Some? ==> Remaining() == old(Remaining())[1..]
    {
      if |components| == 0 {
        return None;
      }
      var component := components[0];
      components := components[1..];
      componentPath := componentPath + [component];
      var style := styleFor(componentPath);
      var text := ComponentText(component);
      if |components| > 0 {
        match component
        case Prefix(_) =>
        case RootDir =>
        case _ =>
          text := text + [MainSeparator];
      }
      item := Some((text, style));
    }
  }
}
