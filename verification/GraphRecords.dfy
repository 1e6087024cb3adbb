/** The records the exporter hands to a graph driver. */
module GraphRecords {

  /** A node's unified symbol resolution string. The program's four spellings of it have different
      prefixes or suffixes, and hash or number what tells nodes of one kind apart. */
  datatype Usr =
    | FileUsr(path: string)
    | TypeUsr(spelling: string)
    | ParamUsr(owner: string, index: nat)
    | SymbolUsr(usr: string)

  datatype Label = File | Namespace | Class | Function | Field | GlobalVariable | Macro | TypeAlias | Type | Parameter

  datatype EdgeType =
    | Defines | Declares | Calls | Inherits | References | Includes
    | MemberOf | Returns | HasParam | OfType | PointsTo | RefersTo

  /** A property value; `UsrText` is a USR as text. */
  datatype Val = Null | Bool(b: bool) | Num(n: real) | Str(s: string) | UsrText(usr: Usr)

  type Props = map<string, Val>

  datatype NodeRecord = NodeRecord(nodeType: Label, usr: Usr, props: Props)

  datatype EdgeRecord = EdgeRecord(source: Usr, target: Usr, edgeType: EdgeType, props: Props)

  /** What identifies a stored edge. */
  datatype EdgeKey = EdgeKey(source: Usr, edgeType: EdgeType, target: Usr)

  function KeyOf(e: EdgeRecord): EdgeKey {
    EdgeKey(e.source, e.edgeType, e.target)
  }

  function NodeUsrs(nodes: seq<NodeRecord>): set<Usr> {
    set n | n in nodes :: n.usr
  }
}
