/** The data objects the core reads (package `zju.cst.aces.dto`); the structural extractor fills them in. */
module Dto {

  /**
   * What the extractor records about a class under test. `methodSigs` is the
   * signature -> id table of `ClassInfo.methodSigs`, kept as a sequence of
   * (signature, id) pairs in the order its key set is iterated, so that "the
   * first signature with a given id" is well defined.
   */
  datatype ClassInfo = ClassInfo(
    packageName: string,
    className: string,
    imports: seq<string>,
    methodSigs: seq<(string, string)>)

  /** One role-tagged entry of a prompt. */
  datatype Message = Message(role: string, content: string)
}
