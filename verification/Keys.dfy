/** How objects are named. */
module Keys {

  /** The namespace and the name of an object. */
  datatype Key = Key(ns: string, name: string)
}
