/** `rewrite_refs` on a mutable JSON tree: it walks the tree and overwrites strings where they stand. */
module SchemaTree {
  import opened SchemaRefs

  datatype Sort = ScalarNode | TextNode | ArrayNode | ObjectNode

  /** A node of the tree. Only the text of a node ever changes. */
  class JsonNode {
    const sort: Sort
    const keys: seq<string>
    const children: seq<JsonNode>
    ghost const repr: set<JsonNode>
    var text: string

    /** The node is on top of a tree: no node is below itself or below two others. */
    ghost predicate Valid()
      decreases repr
    {
      && this in repr
      && (sort.ObjectNode? ==> |keys| == |children|)
      && (sort.ScalarNode? || sort.TextNode? ==> children == [])
      && (forall i :: 0 <= i < |children| ==>
            children[i].repr < repr && this !in children[i].repr && children[i].Valid())
      && (forall i, j :: 0 <= i < j < |children| ==> children[i].repr !! children[j].repr)
    }

    /** A new node over trees that share nothing. */
    constructor (sort: Sort, text: string, keys: seq<string>, children: seq<JsonNode>)
      requires sort.ObjectNode? ==> |keys| == |children|
      requires sort.ScalarNode? || sort.TextNode? ==> children == []
      requires forall i :: 0 <= i < |children| ==> children[i].Valid()
      requires forall i, j :: 0 <= i < j < |children| ==> children[i].repr !! children[j].repr
      ensures Valid() && this.text == text && this.sort == sort && this.keys == keys && this.children == children
    {
      this.sort, this.text, this.keys, this.children := sort, text, keys, children;
      repr := {this} + set i, n | 0 <= i < |children| && n in children[i].repr :: n;
    }

    /** The document the tree stands for. */
    ghost function Value(): Json
      requires Valid()
      reads repr
      decreases repr
    {
      match sort
      case ScalarNode => Scalar(text)
      case TextNode => Text(text)
      case ArrayNode =>
        Array(seq(|children|, i requires 0 <= i < |children| reads repr => children[i].Value()))
      case ObjectNode =>
        Object(seq(|children|, i requires 0 <= i < |children| reads repr => Member(keys[i], children[i].Value())))
    }

    method RewriteRefs(from: string, to: string)
      requires Valid()
      modifies repr
      ensures Value() == Rewrite(old(Value()), from, to)
      decreases repr, 1
    {
      match sort
      case ObjectNode => RewriteMembers(from, to);
      case ArrayNode => RewriteEntries(from, to);
      case _ =>
    }

    method RewriteMembers(from: string, to: string)
      requires Valid() && sort.ObjectNode?
      modifies repr
      ensures Value() == Rewrite(old(Value()), from, to)
      decreases repr, 0
    {
      for i := 0 to |children|
        invariant forall j :: 0 <= j < i ==>
          children[j].Value() == RewriteMember(Member(keys[j], old(children[j].Value())), from, to).value
        invariant forall j :: i <= j < |children| ==> children[j].Value() == old(children[j].Value())
      {
        var entry := children[i];
        if keys[i] == REF && entry.sort.TextNode? && from <= entry.text {
          entry.text := to + entry.text[|from|..];
        } else {
          entry.RewriteRefs(from, to);
        }
      }
    }

    method RewriteEntries(from: string, to: string)
      requires Valid() && sort.ArrayNode?
      modifies repr
      ensures Value() == Rewrite(old(Value()), from, to)
      decreases repr, 0
    {
      for i := 0 to |children|
        invariant forall j :: 0 <= j < i ==> children[j].Value() == Rewrite(old(children[j].Value()), from, to)
        invariant forall j :: i <= j < |children| ==> children[j].Value() == old(children[j].Value())
      {
        children[i].RewriteRefs(from, to);
      }
    }
  }
}
