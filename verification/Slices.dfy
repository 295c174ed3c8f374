/** Go slices: a view of a shared backing array, grown and shrunk in place. */
module Slices {

  /** A slice from the start of its backing array, with room up to the array's end; nil has no array. */
  datatype Slice<T> = Slice(data: array?<T>, length: nat) {
    predicate Valid() {
      if data == null then length == 0 else length <= data.Length
    }

    function Contents(): (contents: seq<T>)
      requires Valid()
      reads data
    {
      if data == null then [] else data[..length]
    }
  }

  /** Writes in place where there is room, as Go does; otherwise moves to a new array of some larger capacity. */
  method Append<T>(s: Slice<T>, x: T) returns (grown: Slice<T>)
    requires s.Valid()
    modifies s.data
    ensures grown.Valid() && grown.Contents() == old(s.Contents()) + [x]
    ensures if s.data != null && s.length < s.data.Length then grown.data == s.data else fresh(grown.data)
    ensures s.Contents() == old(s.Contents())
  {
    if s.data != null && s.length < s.data.Length {
      s.data[s.length] := x;
      return Slice(s.data, s.length + 1);
    }
    var capacity: nat :| s.length < capacity;
    var data := new T[capacity](_ => x);
    if s.data != null {
      forall i | 0 <= i < s.length {
        data[i] := s.data[i];
      }
    }
    grown := Slice(data, s.length + 1);
  }
}
