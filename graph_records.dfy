/** The shape in which the enrichers read classes and their methods back from the graph:
  * stored rows (annotations as JSON text, a method row without a name when the class has no
  * methods) and their decoded records. */
module GraphRecords {
  import opened Wrappers
  import opened Metamodel
  import opened EnricherBase

  datatype MethodRecord = MethodRecord(fullName: string, name: string, annotations: seq<Annotation>)

  /** A class as read back from the graph, with its annotations decoded. */
  datatype ClassRecord = ClassRecord(fullName: string, name: string, annotations: seq<Annotation>, methods: seq<MethodRecord>)

  /** A method row as stored: the name is missing for a class without methods (the optional
    * match yields one empty row), and the annotations are stored JSON. */
  datatype StoredMethod = StoredMethod(fullName: string, name: Option<string>, annotations: StoredJson<Annotation>)

  datatype StoredClass = StoredClass(fullName: string, name: string, annotations: StoredJson<Annotation>, methods: seq<StoredMethod>)

  function DecodeMethod(m: StoredMethod): MethodRecord
    requires m.name.Some?
  {
    MethodRecord(m.fullName, m.name.value, ParseJson(m.annotations))
  }

  /** The method rows that have a name, decoded, in order. */
  function LoadMethods(ms: seq<StoredMethod>): (r: seq<MethodRecord>)
    ensures |r| <= |ms|
    ensures forall x :: x in r <==> exists i :: 0 <= i < |ms| && ms[i].name.Some? && x == DecodeMethod(ms[i])
  {
    if ms == [] then []
    else
      var rest := LoadMethods(ms[..|ms| - 1]);
      assert forall i :: 0 <= i < |ms| - 1 ==> ms[..|ms| - 1][i] == ms[i];
      if ms[|ms| - 1].name.Some? then rest + [DecodeMethod(ms[|ms| - 1])] else rest
  }

  function DecodeClass(c: StoredClass): ClassRecord {
    ClassRecord(c.fullName, c.name, ParseJson(c.annotations), LoadMethods(c.methods))
  }
}
