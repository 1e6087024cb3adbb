/** Cursor trees and types as the exporter sees them, and its classification of a cursor. */
module Cursors {
  import opened Basics
  import opened GraphRecords

  datatype Kind =
    | NamespaceDecl | ClassDecl | StructDecl | ClassTemplate | UnionDecl
    | FunctionDecl | CxxMethod | Constructor | Destructor | FunctionTemplate
    | VarDecl | FieldDecl | ParmDecl | MacroDefinition
    | TypedefDecl | TypeAliasDecl | TypeAliasTemplateDecl
    | InclusionDirective | DeclRefExpr | MemberRefExpr | TypeRef
    | CallExpr | CxxBaseSpecifier | OtherKind(name: string)

  datatype Access = Public | Protected | Private | Unspecified

  datatype TypeKind = Pointer | LValueReference | RValueReference | OtherType

  /** A libclang type: its spelling, kind, pointee or referent, and the node properties probed. */
  datatype TypeInfo = TypeInfo(spelling: string, kind: TypeKind, pointee: Option<nat>, props: Props)

  /** Types by handle. Spellings may repeat, and pointees may form cycles. */
  type TypeTable = map<nat, TypeInfo>

  datatype Arg = Arg(ty: Option<nat>, props: Props)

  /** `usr`, and the USRs of the referenced and base definitions, are "" when there is none;
      `props` stands for the node properties probed. */
  datatype Cursor = Cursor(
    kind: Kind,
    usr: string,
    file: string,
    props: Props,
    isDefinition: bool,
    isStaticMember: bool,
    access: Access,
    ty: Option<nat>,
    resultType: Option<nat>,
    args: seq<Arg>,
    referenced: Option<string>,
    included: Option<string>,
    baseDefinition: Option<string>,
    children: seq<Cursor>)

  /** A cursor's node type, if its kind has one. */
  function Classify(c: Cursor): Option<Label> {
    match c.kind
    case NamespaceDecl => Some(Namespace)
    case ClassDecl => Some(Class)
    case StructDecl => Some(Class)
    case ClassTemplate => Some(Class)
    case UnionDecl => Some(Class)
    case FunctionDecl => Some(Function)
    case CxxMethod => Some(Function)
    case Constructor => Some(Function)
    case Destructor => Some(Function)
    case FunctionTemplate => Some(Function)
    case VarDecl => Some(GlobalVariable)
    case FieldDecl => Some(if c.isStaticMember then GlobalVariable else Field)
    case ParmDecl => Some(Parameter)
    case MacroDefinition => Some(Macro)
    case TypedefDecl => Some(TypeAlias)
    case TypeAliasDecl => Some(TypeAlias)
    case TypeAliasTemplateDecl => Some(TypeAlias)
    case _ => None
  }

  predicate IsFunctionKind(k: Kind) {
    k.FunctionDecl? || k.CxxMethod? || k.Constructor? || k.Destructor? || k.FunctionTemplate?
  }

  predicate IsReferenceKind(k: Kind) {
    k.DeclRefExpr? || k.MemberRefExpr? || k.TypeRef?
  }

  /** Kinds whose fields and methods are MEMBER_OF them. */
  predicate IsMemberParent(k: Kind) {
    k.ClassDecl? || k.StructDecl? || k.ClassTemplate? || k.UnionDecl?
  }

  predicate IsMemberKind(k: Kind) {
    k.FieldDecl? || k.CxxMethod? || k.Constructor? || k.Destructor?
  }

  predicate HasBases(k: Kind) {
    k.ClassDecl? || k.StructDecl? || k.ClassTemplate?
  }

  /** How the tables of kinds fit together: functions, and only they, get the Function label and
      enclose references; records, and only they, get the Class label and have members; bases are
      those of records but unions; members are fields and the functions that belong to a record. */
  lemma KindTables(c: Cursor)
    ensures IsFunctionKind(c.kind) <==> Classify(c) == Some(Function)
    ensures IsMemberParent(c.kind) <==> Classify(c) == Some(Class)
    ensures HasBases(c.kind) <==> IsMemberParent(c.kind) && c.kind != UnionDecl
    ensures IsMemberKind(c.kind)
       <==> c.kind == FieldDecl || (IsFunctionKind(c.kind) && c.kind !in {FunctionDecl, FunctionTemplate})
    ensures IsReferenceKind(c.kind) ==> Classify(c) == None
    ensures Classify(c) == Some(Field) <==> c.kind == FieldDecl && !c.isStaticMember
    ensures Classify(c) == Some(GlobalVariable) <==> c.kind == VarDecl || (c.kind == FieldDecl && c.isStaticMember)
    ensures Classify(c) == Some(TypeAlias) <==> c.kind in {TypedefDecl, TypeAliasDecl, TypeAliasTemplateDecl}
    ensures Classify(c) == Some(Namespace) <==> c.kind == NamespaceDecl
    ensures Classify(c) == Some(Macro) <==> c.kind == MacroDefinition
    ensures Classify(c) == Some(Parameter) <==> c.kind == ParmDecl
    ensures Classify(c) !in {Some(File), Some(Type)}
  {
  }

  function ResolveAccess(access: Access, parentKind: Kind): (r: string)
    ensures access == Public ==> r == "public"
    ensures access == Protected ==> r == "protected"
    ensures access == Private ==> r == "private"
    ensures access == Unspecified ==> r == if parentKind in {StructDecl, UnionDecl} then "public" else "private"
  {
    match access
    case Public => "public"
    case Protected => "protected"
    case Private => "private"
    case Unspecified => if parentKind.StructDecl? || parentKind.UnionDecl? then "public" else "private"
  }

  /** A type's USR, if the type is there and has a spelling. */
  function TypeUsrOf(table: TypeTable, h: Option<nat>): Option<Usr> {
    if h.Some? && h.value in table && table[h.value].spelling != "" then
      Some(TypeUsr(table[h.value].spelling))
    else
      None
  }

  lemma TypeUsrIs(table: TypeTable, h: Option<nat>, u: Usr)
    ensures TypeUsrOf(table, h) == Some(u)
       <==> h.Some? && h.value in table && u == TypeUsr(table[h.value].spelling) && u.spelling != ""
  {
  }
}
