/** JSON values as the proxy handles them: objects have distinct keys, numbers keep their text. */
module JsonTree {
  import opened ByteStrings

  datatype Json =
    | Null
    | Bool(value: bool)
    | Number(literal: string)
    | String(text: string)
    | Array(items: seq<Json>)
    | Object(members: map<string, Json>)

  datatype PathStep = Key(name: string) | Index(position: nat)

  /** The value at a path, if there is one. */
  function Lookup(v: Json, path: seq<PathStep>): Option<Json>
    decreases |path|
  {
    if path == [] then Some(v)
    else
      match path[0]
      case Key(k) => if v.Object? && k in v.members then Lookup(v.members[k], path[1..]) else None
      case Index(i) => if v.Array? && i < |v.items| then Lookup(v.items[i], path[1..]) else None
  }
}
