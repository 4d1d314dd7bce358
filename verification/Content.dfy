/** Content streams, resources and the objects they refer to, as the watermark
    remover sees them after the PDF library has parsed the file. */
module Content {
  import opened Wrappers
  import opened Matrices

  type Name = string
  type ObjectId = nat
  /** Identity of an image: the digest of its size and data. */
  type Digest = nat

  /** A properties dictionary of a marked-content operator or of an `/OC` entry.
      `members` holds the group names when the dictionary is a membership
      dictionary (`/OCMD`); otherwise the dictionary is itself the group. */
  datatype Properties = Properties(subtype: string, name: string, members: Option<seq<string>>)

  datatype AlphaEntry = Absent | Malformed | Alpha(value: real)

  datatype ExtGState = ExtGState(fill: AlphaEntry, stroke: AlphaEntry)

  /** A resource dictionary. A missing dictionary and an empty one behave alike
      everywhere in the source and are both `None` where a dictionary is optional.
      `dict` is the identity of its /XObject dictionary, which several may share. */
  datatype Resources = Resources(
    properties: map<Name, Properties>,
    states: map<Name, ExtGState>,
    xobjects: seq<(Name, ObjectId)>,
    dict: nat)

  datatype XObject =
    | Image(digest: Digest, softMask: bool, oc: Option<Properties>)
    | Form(resources: Option<Resources>, matrix: Option<Matrix>, oc: Option<Properties>)
    | OtherXObject(oc: Option<Properties>)

  type Objects = map<ObjectId, XObject>

  /** The properties operand of `BDC`: an inline dictionary or a resource name. */
  datatype PropertiesOperand = Inline(dict: Properties) | Named(name: Name)

  datatype Mark = Mark(tag: string, operand: PropertiesOperand)

  /** Content-stream operators with their decoded operands. */
  datatype Op =
    | Save                                // q
    | Restore                             // Q
    | Concat(m: Matrix)                   // cm
    | SetState(state: Name)               // gs
    | BeginText                           // BT
    | EndText                             // ET
    | TextMatrix(m: Matrix)               // Tm
    | SelectFont(size: real)              // Tf with two operands
    | ShowText(text: string)              // Tj, TJ, ' and "
    | BeginMarkedProps(mark: Option<Mark>)  // BDC; None when it lacks its two operands
    | BeginMarked                         // BMC
    | EndMarked                           // EMC
    | Draw(xobject: Name)                 // Do
    | InlineImage(digest: Option<Digest>) // BI .. ID .. EI; None when unreadable
    | Other(code: nat)                    // anything else

  function FindXObject(entries: seq<(Name, ObjectId)>, name: Name): Option<ObjectId> {
    if entries == [] then None
    else if entries[0].0 == name then Some(entries[0].1)
    else FindXObject(entries[1..], name)
  }

  /** The object a `Do` operator draws, if its name resolves. */
  function XObjectNamed(objects: Objects, res: Option<Resources>, name: Name): (r: Option<ObjectId>)
    ensures r.Some? ==> res.Some? && r.value in objects
  {
    if res.None? then None
    else match FindXObject(res.value.xobjects, name)
      case Some(id) => if id in objects then Some(id) else None
      case None => None
  }

  /** What `gs` makes of the current alpha: the fill entry decides, else the stroke entry. */
  function AlphaAfter(res: Option<Resources>, name: Name, current: real): real {
    if res.None? || name !in res.value.states then current
    else
      var s := res.value.states[name];
      match if s.fill.Absent? then s.stroke else s.fill
      case Alpha(v) => v
      case _ => current
  }

  function ResolveProperties(res: Option<Resources>, operand: PropertiesOperand): Option<Properties> {
    match operand
    case Inline(dict) => Some(dict)
    case Named(name) =>
      if res.Some? && name in res.value.properties then Some(res.value.properties[name]) else None
  }

  function LowerChar(c: char): char {
    if 'A' <= c <= 'Z' then c + ' ' else c
  }

  function Lower(s: string): string {
    seq(|s|, i requires 0 <= i < |s| => LowerChar(s[i]))
  }

  predicate Contains(s: string, part: string) {
    exists i :: 0 <= i <= |s| && part <= s[i..]
  }

  predicate NamesWatermark(s: string) {
    Contains(Lower(s), "watermark")
  }

  predicate IsWatermarkLayer(p: Option<Properties>) {
    p.Some? && match p.value.members
      case Some(names) => exists i :: 0 <= i < |names| && NamesWatermark(names[i])
      case None => NamesWatermark(p.value.name)
  }

  predicate IsWatermarkArtifact(p: Option<Properties>) {
    p.Some? && (p.value.subtype == "/Watermark" || NamesWatermark(p.value.name))
  }

  predicate IsSpace(c: char) {
    c == ' ' || '\t' <= c <= '\r'
  }

  /** Text as it is compared: without blanks and in lower case. */
  function Normalise(s: string): (r: string)
    ensures |r| <= |s|
    ensures forall i :: 0 <= i < |r| ==> !IsSpace(r[i]) && !('A' <= r[i] <= 'Z')
  {
    if s == [] then []
    else if IsSpace(s[0]) then Normalise(s[1..])
    else [LowerChar(s[0])] + Normalise(s[1..])
  }
}
