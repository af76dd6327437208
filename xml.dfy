/** The part of the XML tree model the recipe looks at: tags with a name, an optional text value and child tags. */
module Xml {
  import opened Wrappers

  datatype Tag = Tag(name: string, value: Option<string>, children: seq<Tag>)

  /** A parsed XML source file: its source path and its root tag. */
  datatype Document = Document(path: string, root: Tag)

  /** A tag that holds only a text value, such as `<groupId>com.gradle</groupId>`. */
  function Leaf(name: string, text: string): Tag {
    Tag(name, Some(text), [])
  }

  /** The first tag in `children` with the given name, if any. */
  function FindChild(children: seq<Tag>, name: string): (r: Option<Tag>)
    ensures r.None? <==> forall i :: 0 <= i < |children| ==> children[i].name != name
    ensures r.Some? ==> exists i :: 0 <= i < |children| && children[i] == r.value && r.value.name == name &&
                          forall j :: 0 <= j < i ==> children[j].name != name
  {
    if children == [] then None
    else if children[0].name == name then Some(children[0])
    else
      var r := FindChild(children[1..], name);
      assert r.Some? ==> exists i :: 1 <= i < |children| && children[i] == r.value && forall j :: 1 <= j < i ==> children[j].name != name by {
        if r.Some? {
          var i :| 0 <= i < |children[1..]| && children[1..][i] == r.value && forall j :: 0 <= j < i ==> children[1..][j].name != name;
          assert children[i + 1] == r.value;
          assert forall j :: 1 <= j < i + 1 ==> children[j] == children[1..][j - 1];
        }
      }
      r
  }

  /** The text value of the first child of `t` with the given name, if there is such a child and it has a value. */
  function ChildValue(t: Tag, name: string): Option<string> {
    match FindChild(t.children, name)
    case None => None
    case Some(c) => c.value
  }

  /** Looking a name up in a concatenation looks in the first part, then in the second. */
  lemma {:induction false} FindChildAppend(a: seq<Tag>, b: seq<Tag>, name: string)
    ensures FindChild(a + b, name) == if FindChild(a, name).Some? then FindChild(a, name) else FindChild(b, name)
  {
    if a != [] {
      assert (a + b)[1..] == a[1..] + b;
      FindChildAppend(a[1..], b, name);
    } else {
      assert a + b == b;
    }
  }
}
