// The try-on request handler (try_on): the order of its error checks and the
// choice of exactly one placement strategy from the garment type.
//
// What the handler learns from outside code is abstract here: which uploaded
// files are present, the submitted form fields, whether each image decodes,
// and whether the pose detector found a person.

module Dispatch {

  datatype Option<T> = None | Some(value: T)

  /** The three garment types, one per placement strategy. */
  datatype Garment = Top | Bottom | Full

  datatype Failure = MissingFiles | LoadFailed | NoPose | UnknownType

  datatype Response = Rejected(failure: Failure) | Render(garment: Garment)

  datatype Request = Request(
    files: set<string>,           // names of the uploaded files
    form: map<string, string>,    // submitted form fields
    personDecodes: bool,          // the person photograph decodes as a colour image
    clothDecodes: bool,           // the garment image decodes
    poseFound: bool)              // the pose detector found landmarks in the photograph

  function Name(g: Garment): string
  {
    match g
    case Top => "top"
    case Bottom => "bottom"
    case Full => "full"
  }

  function Message(f: Failure): string
  {
    match f
    case MissingFiles => "Missing files"
    case LoadFailed => "Error loading images"
    case NoPose => "No pose detected"
    case UnknownType => "Unknown type"
  }

  /** The HTTP status of a response: every rejection is a client error. */
  function Status(resp: Response): int
  {
    if resp.Rejected? then 400 else 200
  }

  /** ASCII lower-casing of one character. */
  function LowerChar(ch: char): (lc: char)
    ensures 'A' <= ch <= 'Z' ==> lc as int == ch as int + 32
    ensures !('A' <= ch <= 'Z') ==> lc == ch
    ensures !('A' <= lc <= 'Z')
  {
    if 'A' <= ch <= 'Z' then (ch as int + 32) as char else ch
  }

  function Lower(s: string): (r: string)
    ensures |r| == |s|
    ensures forall i :: 0 <= i < |s| ==> r[i] == LowerChar(s[i])
  {
    if s == [] then [] else [LowerChar(s[0])] + Lower(s[1..])
  }

  lemma {:induction false} LowerIdempotent(s: string)
    ensures Lower(Lower(s)) == Lower(s)
  {
    if s != [] {
      LowerIdempotent(s[1..]);
      assert Lower(s)[1..] == Lower(s[1..]);
    }
  }

  /** The garment type as the handler compares it: the `type` form field, `top`
      when the field is absent, lower-cased. */
  function ClothType(req: Request): string
  {
    Lower(if "type" in req.form then req.form["type"] else "top")
  }

  /** The strategy a lower-cased type string selects, if any. */
  function GarmentOf(t: string): (g: Option<Garment>)
    ensures g.Some? <==> t == "top" || t == "bottom" || t == "full"
    ensures g.Some? ==> Name(g.value) == t
  {
    if t == "top" then Some(Top)
    else if t == "bottom" then Some(Bottom)
    else if t == "full" then Some(Full)
    else None
  }

  predicate FilesPresent(req: Request) { "user" in req.files && "product" in req.files }

  predicate ImagesLoaded(req: Request) { req.personDecodes && req.clothDecodes }

  /** All checks before the type comparison pass. */
  predicate Ready(req: Request) { FilesPresent(req) && ImagesLoaded(req) && req.poseFound }

  /** The handler's outcome: missing files, then undecodable images, then no pose,
      and only then the type, which selects one strategy or is rejected. */
  function TryOn(req: Request): (resp: Response)
    ensures resp == Rejected(MissingFiles) <==> !FilesPresent(req)
    ensures resp == Rejected(LoadFailed) <==> FilesPresent(req) && !ImagesLoaded(req)
    ensures resp == Rejected(NoPose) <==> FilesPresent(req) && ImagesLoaded(req) && !req.poseFound
    ensures resp == Rejected(UnknownType) <==> Ready(req) && GarmentOf(ClothType(req)).None?
    ensures resp.Render? <==> Ready(req) && GarmentOf(ClothType(req)).Some?
    ensures resp.Render? ==> Name(resp.garment) == ClothType(req)
  {
    if !FilesPresent(req) then Rejected(MissingFiles)
    else if !ImagesLoaded(req) then Rejected(LoadFailed)
    else if !req.poseFound then Rejected(NoPose)
    else match GarmentOf(ClothType(req))
      case Some(g) => Render(g)
      case None => Rejected(UnknownType)
  }

  /** Each strategy's name is the one type string that selects it. */
  lemma NameSelects(g: Garment, t: string)
    ensures GarmentOf(t) == Some(g) <==> t == Name(g)
    ensures Lower(Name(g)) == Name(g)
  {
    match g
    case Top => assert Lower("top") == "top";
    case Bottom => assert Lower("bottom") == "bottom";
    case Full => assert Lower("full") == "full";
  }

  /** Without a `type` field a ready request gets the upper-body strategy. */
  lemma DefaultIsTop(req: Request)
    requires Ready(req) && "type" !in req.form
    ensures TryOn(req) == Render(Top)
  {
    NameSelects(Top, "top");
  }

  /** The type comparison ignores letter case. */
  lemma TypeIgnoresCase(req: Request, t: string)
    ensures TryOn(req.(form := req.form["type" := t])) == TryOn(req.(form := req.form["type" := Lower(t)]))
  {
    LowerIdempotent(t);
  }

  /** Until the three earlier checks pass, the type field has no effect. */
  lemma EarlierChecksFirst(req: Request, form: map<string, string>)
    requires !Ready(req)
    ensures TryOn(req.(form := form)) == TryOn(req)
  {
  }

  /** An unrecognised type is reported only after pose detection: a request for
      "shoes" whose photograph has no pose gets the no-pose error. */
  lemma UnknownTypeAfterPose(req: Request)
    requires FilesPresent(req) && ImagesLoaded(req) && !req.poseFound
    requires req.form == map["type" := "shoes"]
    ensures TryOn(req) == Rejected(NoPose)
    ensures TryOn(req.(poseFound := true)) == Rejected(UnknownType)
  {
    assert Lower("shoes") == "shoes";
  }

  /** Every failure is a 400 with its own message, and success is a 200. */
  lemma FailuresDistinct(f: Failure, f': Failure, g: Garment)
    ensures Status(Rejected(f)) == 400 && Status(Render(g)) == 200
    ensures Message(f) == Message(f') <==> f == f'
  {
    if f != f' {
      assert Message(f)[0] != Message(f')[0];
    }
  }
}
