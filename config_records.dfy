/**
 * The records the trust configuration is made of (the Gson-bound classes
 * `Config`, `Source`, `ConfigClass` and `ConstructorInfo`).
 */
module ConfigRecords {
  import opened Wrappers

  /**
   * The ordered parameter descriptors one configured constructor expects. Gson keeps a
   * JSON `null` entry of the list as a null element, which is `None` here.
   */
  datatype ConstructorInfo = ConstructorInfo(parameterTypes: seq<Option<string>>)

  /** A class profile of a source: its name, the methods that read data, and its constructors. */
  datatype ConfigClass = ConfigClass(className: string, methods: seq<string>, constructors: seq<ConstructorInfo>)

  /** One external source of data and whether it is trusted. */
  datatype Source = Source(name: string, trusted: bool, classes: seq<ConfigClass>)

  /** The whole configuration document; `sources` is absent when the document has no such list. */
  datatype Config = Config(sources: Option<seq<Source>>)

  /** `source` has a class profile named `className`. */
  predicate Lists(source: Source, className: string) {
    exists p :: p in source.classes && p.className == className
  }
}
