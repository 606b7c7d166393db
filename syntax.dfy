/**
 * The structural facts the merge engine reads from a parsed plugin source
 * file. A real parse is done by the C# compiler's syntax API; here a file
 * is given directly as the list of its type declarations (in document
 * order, nested ones included) and its using directives.
 */
module Syntax {
  import opened Wrappers

  /** A 0-based line/character span in a file (`FileLinePositionSpan`). */
  datatype Span = Span(path: string, startLine: int, startChar: int, endLine: int, endChar: int)

  /** Declaration modifiers, in source order. */
  datatype Modifier = Public | Private | Protected | Internal | Static | Sealed | Abstract | Partial | Unsafe | OtherModifier(text: string)

  /**
   * The kind of a `TypeDeclarationSyntax`. Enum and delegate declarations
   * are not type declarations in that sense and none of the checks below
   * sees them, so they are not represented.
   */
  datatype TypeKind = ClassKind | StructKind | InterfaceKind | RecordKind | RecordStructKind

  /** The keyword that introduces a declaration of this kind (`Keyword.ValueText`). */
  function KeywordText(k: TypeKind): string {
    match k
    case ClassKind => "class"
    case StructKind => "struct"
    case InterfaceKind => "interface"
    case RecordKind => "record"
    case RecordStructKind => "record"
  }

  /**
   * One `[...]` attribute list: its full text, its start offset in its file
   * and the names of the attributes it holds.
   */
  datatype AttributeList = AttributeList(text: string, start: int, names: seq<string>)

  /** A member declaration; `start` is its file-local offset, if it has a location. */
  datatype Member = Member(text: string, start: Option<int>)

  /** A using directive; `name` is absent for forms that have no name node. */
  datatype UsingDirective = UsingDirective(name: Option<string>, text: string)

  /**
   * A type declaration. `ns` is the name of its innermost enclosing
   * namespace (`NamespaceOf`), absent at the global level; `topLevel` says
   * whether its parent is the compilation unit or a namespace
   * (`IsTopLevelType`) rather than another type.
   */
  datatype TypeDecl = TypeDecl(
    kind: TypeKind,
    identifier: string,
    ns: Option<string>,
    topLevel: bool,
    modifiers: seq<Modifier>,
    attributes: seq<AttributeList>,
    baseList: Option<seq<string>>,
    typeParams: Option<string>,
    constraints: seq<string>,
    members: seq<Member>,
    identifierSpan: Option<Span>)
  {
    predicate IsClass() { kind == ClassKind }
    predicate IsPartial() { Partial in modifiers }
    predicate IsPublic() { Public in modifiers }
  }

  /**
   * A parsed source file. `usings` are the compilation unit's own using
   * directives; those declared inside a namespace block are not collected,
   * and the merged file does not carry them.
   */
  datatype SourceFile = SourceFile(path: string, usings: seq<UsingDirective>, decls: seq<TypeDecl>)

  /** `BuildQualifiedName`: `ns.identifier`, or the bare identifier without a namespace. */
  function QualifiedName(ns: Option<string>, identifier: string): string {
    match ns
    case None => identifier
    case Some(n) => if n == "" then identifier else n + "." + identifier
  }
}
