/** The values every stage of the pipeline passes on: constraint identities, the
    dependency graph taken at snapshot time, and optional values. */
module Schema {

  datatype Option<+T> = None | Some(value: T)

  /** A constraint is identified by the class that lists it and its name: the name
      alone is unique only within its class. */
  datatype Key = Key(cls: string, name: string)

  datatype Kind = ForeignKey | Unique | PrimaryKey

  /** One dropped constraint. */
  datatype Stripped = Stripped(kind: Kind, key: Key)

  /** A class's constraints; an empty `pk` means it has none. */
  datatype Inventory = Inventory(pk: string, unique: seq<string>, fk: seq<string>)

  datatype Node = Node(name: string, csLoadable: bool, partitioned: bool, partitions: seq<string>,
                       constraints: Inventory, serials: seq<string>)

  datatype FkEdge = FkEdge(child: string, parent: string, name: string,
                           childColumns: seq<string>, parentPkColumns: seq<string>, childPkColumns: seq<string>)
  {
    function Id(): Key { Key(child, name) }
  }

  datatype InheritEdge = InheritEdge(child: string, super: string)

  /** The snapshot. The planned level sets are kept apart, as the manifest keeps them. */
  datatype Graph = Graph(database: string, nodes: seq<Node>, fkEdges: seq<FkEdge>, inheritEdges: seq<InheritEdge>,
                         cycles: seq<seq<string>>, skipped: seq<string>)

  /** Node `n` lists `name` among its constraints. */
  predicate Lists(n: Node, name: string) {
    n.constraints.pk == name || name in n.constraints.unique || name in n.constraints.fk
  }
}
