/** The knowledge base of knowledge_base/: the FAQ article, vote and attachment records with
    their helpers (`total_votos`, `porcentaje_utilidad`, `extension`, `es_imagen`, `es_pdf`),
    and a store whose methods follow the listing, detail, vote and admin create/edit views. */
module KnowledgeBase {
  import opened Text
  import opened Accounts
  import opened Roles

  // ----------------------------------------------------------------------------------
  // Records
  // ----------------------------------------------------------------------------------

  /** ArticuloFAQ. `creadoPor` and `categoria` are nullable foreign keys. */
  datatype Articulo = Articulo(id: nat, titulo: string, problema: string, solucion: string,
                               categoria: Option<nat>, tags: string, creadoPor: Option<nat>,
                               publicado: bool, destacado: bool,
                               vistas: int, utilSi: int, utilNo: int)

  /** VotoFAQ; `util` is true for the stored value "si" and false for "no". */
  datatype Voto = Voto(usuario: nat, articulo: nat, util: bool)

  /** ArchivoFAQ; `nombre` is the stored file name, upload directories included. */
  datatype Archivo = Archivo(id: nat, articulo: nat, nombre: string, descripcion: string,
                             orden: nat, subidoPor: Option<nat>)

  /** `total_votos`. */
  function TotalVotos(a: Articulo): int {
    a.utilSi + a.utilNo
  }

  /** `porcentaje_utilidad`: None without votes, otherwise the share of positive votes in
      percent (before the rounding to one decimal). */
  function PorcentajeUtilidad(a: Articulo): (r: Option<real>)
    requires a.utilSi >= 0 && a.utilNo >= 0
    ensures r.None? <==> TotalVotos(a) == 0
    ensures r.Some? ==> 0.0 <= r.value <= 100.0
    ensures r.Some? ==> r.value * (TotalVotos(a) as real) == 100.0 * (a.utilSi as real)
  {
    var total := a.utilSi + a.utilNo;
    if total == 0 then None else Some((a.utilSi as real) * 100.0 / (total as real))
  }

  // ----------------------------------------------------------------------------------
  // File extensions: `os.path.splitext` on POSIX paths
  // ----------------------------------------------------------------------------------

  /** `s.rfind(c)`: the last index of `c`, or -1. */
  function LastIndex(s: string, c: char): (r: int)
    ensures -1 <= r < |s|
    ensures r >= 0 ==> s[r] == c
    ensures forall k :: r < k < |s| ==> s[k] != c
  {
    if s == [] then -1
    else if s[|s| - 1] == c then |s| - 1
    else LastIndex(s[..|s| - 1], c)
  }

  /** Some character of `s[lo..hi]` is not a dot. */
  predicate HasNonDot(s: string, lo: int, hi: int)
    requires 0 <= lo <= hi <= |s|
  {
    exists k :: lo <= k < hi && s[k] != '.'
  }

  /** `os.path.splitext(p)`: the extension runs from the last dot of the last path
      component, unless every character before that dot in the component is a dot. */
  function SplitExt(p: string): (string, string) {
    var sep := LastIndex(p, '/');
    var dot := LastIndex(p, '.');
    if dot > sep && HasNonDot(p, sep + 1, dot) then (p[..dot], p[dot..]) else (p, [])
  }

  /** The two parts put back together give the path; the extension is empty or a dot
      followed by neither dots nor slashes; and it is empty exactly when the last component
      has no dot after a non-dot character. */
  lemma SplitExtShape(p: string)
    ensures var (root, ext) := SplitExt(p);
      && root + ext == p
      && (ext == [] || (ext[0] == '.' && forall k :: 1 <= k < |ext| ==> ext[k] != '.' && ext[k] != '/'))
      && (ext != [] <==> exists i, j :: 0 <= i < j < |p| && p[i] != '.' && p[j] == '.' &&
                                        forall k :: i <= k < |p| ==> p[k] != '/')
  {
    var sep := LastIndex(p, '/');
    var dot := LastIndex(p, '.');
    var (root, ext) := SplitExt(p);
    if ext != [] {
      var i :| sep + 1 <= i < dot && p[i] != '.';
      assert 0 <= i < dot < |p| && p[i] != '.' && p[dot] == '.';
      assert forall k :: i <= k < |p| ==> p[k] != '/';
      forall k | 1 <= k < |ext| ensures ext[k] != '.' && ext[k] != '/' {
        assert ext[k] == p[dot + k];
      }
    }
    forall i, j | 0 <= i < j < |p| && p[i] != '.' && p[j] == '.' && (forall k :: i <= k < |p| ==> p[k] != '/')
      ensures ext != []
    {
      assert sep < i && j <= dot;
      assert HasNonDot(p, sep + 1, dot) by { assert sep + 1 <= i < dot; }
    }
  }

  /** The last `c` of `s` is at `r` (-1: none) when `s[r]` is one and nothing after it is. */
  lemma LastIndexIs(s: string, c: char, r: int)
    requires -1 <= r < |s| && (r >= 0 ==> s[r] == c)
    requires forall k :: r < k < |s| ==> s[k] != c
    ensures LastIndex(s, c) == r
  {
  }

  /** `ArchivoFAQ.extension()`: the extension, lower-cased. */
  function Extension(nombre: string): string {
    Lower(SplitExt(nombre).1)
  }

  const ImageExtensions: seq<string> := [".jpg", ".jpeg", ".png", ".gif", ".bmp", ".webp"]

  /** `es_imagen()`. */
  predicate EsImagen(nombre: string) {
    Extension(nombre) in ImageExtensions
  }

  /** `es_pdf()`. */
  predicate EsPdf(nombre: string) {
    Extension(nombre) == ".pdf"
  }

  /** No file is both an image and a PDF. */
  lemma ImageAndPdfExclusive(nombre: string)
    ensures !(EsImagen(nombre) && EsPdf(nombre))
  {
    if EsPdf(nombre) {
      assert Extension(nombre) == ".pdf";
      assert ".pdf" !in ImageExtensions by {
        assert ".pdf" != ".jpg" && ".pdf" != ".png" && ".pdf" != ".gif" && ".pdf" != ".bmp";
        assert |".pdf"| != |".jpeg"| && |".pdf"| != |".webp"| + 1;
        assert ".pdf"[1] != ".webp"[1];
      }
    }
  }

  /** Worked cases of the splitting rule: the last dot counts, a dot in a directory name
      does not, leading dots are no extension, and upper-case extensions are folded. */
  lemma ExtensionExamples()
    ensures SplitExt("a.tar.gz") == ("a.tar", ".gz")
    ensures SplitExt("p.d/x") == ("p.d/x", "")
    ensures SplitExt("..pdf") == ("..pdf", "")
    ensures Extension("G.PDF") == ".pdf"
  {
    var s1 := "a.tar.gz";
    forall k | 5 < k < |s1| ensures s1[k] != '.' { assert k == 6 || k == 7; }
    forall k | -1 < k < |s1| ensures s1[k] != '/' { assert 0 <= k < 8; }
    LastIndexIs(s1, '.', 5);
    LastIndexIs(s1, '/', -1);
    assert HasNonDot(s1, 0, 5) by { assert s1[0] != '.'; }
    assert s1[..5] == "a.tar" && s1[5..] == ".gz";

    var s2 := "p.d/x";
    forall k | 1 < k < |s2| ensures s2[k] != '.' { assert k == 2 || k == 3 || k == 4; }
    LastIndexIs(s2, '.', 1);
    LastIndexIs(s2, '/', 3);

    var s3 := "..pdf";
    forall k | 1 < k < |s3| ensures s3[k] != '.' { assert k == 2 || k == 3 || k == 4; }
    forall k | -1 < k < |s3| ensures s3[k] != '/' { assert 0 <= k < 5; }
    LastIndexIs(s3, '.', 1);
    LastIndexIs(s3, '/', -1);
    assert !HasNonDot(s3, 0, 1);

    var s4 := "G.PDF";
    forall k | 1 < k < |s4| ensures s4[k] != '.' { assert k == 2 || k == 3 || k == 4; }
    forall k | -1 < k < |s4| ensures s4[k] != '/' { assert 0 <= k < 5; }
    LastIndexIs(s4, '.', 1);
    LastIndexIs(s4, '/', -1);
    assert HasNonDot(s4, 0, 1) by { assert s4[0] != '.'; }
    var e := s4[1..];
    assert e == ".PDF";
    assert Lower(e) == [LowerChar('.'), LowerChar('P'), LowerChar('D'), LowerChar('F')];
  }

  // ----------------------------------------------------------------------------------
  // Votes
  // ----------------------------------------------------------------------------------

  /** The vote field: "si" is a useful vote, "no" a not-useful one, anything else none. */
  function VoteValue(v: Option<string>): Option<bool> {
    if v == Some("si") then Some(true) else if v == Some("no") then Some(false) else None
  }

  lemma VoteValueCases(v: Option<string>)
    ensures VoteValue(v) == Some(true) <==> v == Some("si")
    ensures VoteValue(v) == Some(false) <==> v == Some("no")
    ensures VoteValue(v).None? <==> v != Some("si") && v != Some("no")
  {
  }

  /** The `unique_together = ('usuario', 'articulo')` constraint. */
  predicate UniqueVotes(vs: seq<Voto>) {
    forall i, j :: 0 <= i < j < |vs| ==> !(vs[i].usuario == vs[j].usuario && vs[i].articulo == vs[j].articulo)
  }

  /** `VotoFAQ.objects.filter(usuario=..., articulo=...).first()`, as an index. */
  function FindVote(vs: seq<Voto>, user: nat, articulo: nat): (r: Option<nat>)
    ensures r.Some? ==> r.value < |vs| && vs[r.value].usuario == user && vs[r.value].articulo == articulo
    ensures r.None? ==> forall k :: 0 <= k < |vs| ==> !(vs[k].usuario == user && vs[k].articulo == articulo)
  {
    if vs == [] then None
    else if vs[|vs| - 1].usuario == user && vs[|vs| - 1].articulo == articulo then Some(|vs| - 1)
    else FindVote(vs[..|vs| - 1], user, articulo)
  }

  /** The votes of the given kind on an article. */
  function CountVotes(vs: seq<Voto>, articulo: nat, util: bool): nat {
    if vs == [] then 0
    else CountVotes(vs[..|vs| - 1], articulo, util) + (if vs[|vs| - 1].articulo == articulo && vs[|vs| - 1].util == util then 1 else 0)
  }

  /** All votes on an article. */
  function VotesOn(vs: seq<Voto>, articulo: nat): nat {
    if vs == [] then 0
    else VotesOn(vs[..|vs| - 1], articulo) + (if vs[|vs| - 1].articulo == articulo then 1 else 0)
  }

  /** The votes one user gave one article. */
  function VotesBy(vs: seq<Voto>, user: nat, articulo: nat): nat {
    if vs == [] then 0
    else VotesBy(vs[..|vs| - 1], user, articulo) + (if vs[|vs| - 1].usuario == user && vs[|vs| - 1].articulo == articulo then 1 else 0)
  }

  /** Useful and not-useful votes together are all the votes on an article. */
  lemma {:induction false} CountVotesSplit(vs: seq<Voto>, articulo: nat)
    ensures CountVotes(vs, articulo, true) + CountVotes(vs, articulo, false) == VotesOn(vs, articulo)
  {
    if vs != [] {
      CountVotesSplit(vs[..|vs| - 1], articulo);
    }
  }

  /** Under the uniqueness constraint a user has at most one vote on an article, and none
      exactly when the lookup finds none. */
  lemma {:induction false} UniqueVotesAtMostOne(vs: seq<Voto>, user: nat, articulo: nat)
    requires UniqueVotes(vs)
    ensures VotesBy(vs, user, articulo) <= 1
    ensures VotesBy(vs, user, articulo) == 0 <==> FindVote(vs, user, articulo).None?
  {
    if vs != [] {
      var init := vs[..|vs| - 1];
      assert UniqueVotes(init);
      UniqueVotesAtMostOne(init, user, articulo);
    }
  }

  /** Adding one vote counts it once, under its own article and kind only. */
  lemma CountVotesSnoc(vs: seq<Voto>, v: Voto, articulo: nat, util: bool)
    ensures CountVotes(vs + [v], articulo, util) ==
            CountVotes(vs, articulo, util) + (if v.articulo == articulo && v.util == util then 1 else 0)
  {
    assert (vs + [v])[..|vs|] == vs;
  }

  /** No vote names the article: it has no votes of either kind. */
  lemma {:induction false} CountVotesNone(vs: seq<Voto>, articulo: nat, util: bool)
    requires forall k :: 0 <= k < |vs| ==> vs[k].articulo != articulo
    ensures CountVotes(vs, articulo, util) == 0
  {
    if vs != [] {
      CountVotesNone(vs[..|vs| - 1], articulo, util);
    }
  }

  /** The article after a vote of kind `util`: that counter moves by exactly one and
      nothing else changes. */
  function Counted(a: Articulo, util: bool): (r: Articulo)
    ensures util ==> r.utilSi == a.utilSi + 1 && r.utilNo == a.utilNo
    ensures !util ==> r.utilNo == a.utilNo + 1 && r.utilSi == a.utilSi
    ensures TotalVotos(r) == TotalVotos(a) + 1
    ensures r.(utilSi := a.utilSi, utilNo := a.utilNo) == a
  {
    if util then a.(utilSi := a.utilSi + 1) else a.(utilNo := a.utilNo + 1)
  }

  // ----------------------------------------------------------------------------------
  // Forms and attachments
  // ----------------------------------------------------------------------------------

  /** The admin form's fields as posted; `publicado` and `destacado` are whether the
      checkbox value was "on", and `categoria` is None when the field is empty. */
  datatype FaqForm = FaqForm(titulo: string, problema: string, solucion: string, categoria: Option<nat>,
                             tags: string, publicado: bool, destacado: bool)

  /** An article as `faq_admin_crear` creates it: stripped texts and zero counters. */
  function NewArticle(id: nat, f: FaqForm, creador: nat): Articulo {
    Articulo(id, Strip(f.titulo), Strip(f.problema), Strip(f.solucion), f.categoria, Strip(f.tags),
             Some(creador), f.publicado, f.destacado, 0, 0, 0)
  }

  /** An article as `faq_admin_editar` saves it: the form's stripped texts and flags, with
      the id, author, view count and vote counters kept. */
  function EditedArticle(a: Articulo, f: FaqForm): (r: Articulo)
    ensures r.id == a.id && r.creadoPor == a.creadoPor
    ensures r.vistas == a.vistas && r.utilSi == a.utilSi && r.utilNo == a.utilNo
    ensures r.titulo == Strip(f.titulo) && r.problema == Strip(f.problema) && r.solucion == Strip(f.solucion)
  {
    a.(titulo := Strip(f.titulo), problema := Strip(f.problema), solucion := Strip(f.solucion),
       categoria := f.categoria, tags := Strip(f.tags), publicado := f.publicado, destacado := f.destacado)
  }

  /** The creation form is complete: title, problem and solution are not blank. */
  predicate Complete(f: FaqForm) {
    Strip(f.titulo) != [] && Strip(f.problema) != [] && Strip(f.solucion) != []
  }

  /** The default description of the `i`-th upload. */
  function DefaultLabel(i: nat): string {
    "Archivo " + NatToString(i + 1)
  }

  /** `descripciones[i] if i < len(descripciones) else f"Archivo {i+1}"`, stripped. */
  function Descripcion(descs: seq<string>, i: nat): string {
    Strip(if i < |descs| then descs[i] else DefaultLabel(i))
  }

  /** Stripping leaves the default description as it is. */
  lemma DefaultLabelStripped(i: nat)
    ensures Descripcion([], i) == DefaultLabel(i)
  {
    var s := DefaultLabel(i);
    NatToStringRoundTrip(i + 1);
    var d := NatToString(i + 1);
    assert s[0] == 'A';
    assert s[|s| - 1] == d[|d| - 1];
    assert TrimLeft(s) == s;
    assert TrimRight(s) == s;
  }

  /** The descriptions of the first `n` uploads. */
  function Descripciones(descs: seq<string>, n: nat): (r: seq<string>)
    ensures |r| == n
  {
    seq(n, i requires 0 <= i < n => Descripcion(descs, i))
  }

  /** The rows the upload loop creates: the `i`-th file gets id `firstId + i`, order
      `base + i` and the `i`-th label. */
  function Adjuntos(firstId: nat, articulo: nat, files: seq<string>, labels: seq<string>, base: nat,
                    user: nat): (r: seq<Archivo>)
    requires |files| <= |labels|
    ensures |r| == |files|
  {
    if files == [] then []
    else
      var n := |files| - 1;
      Adjuntos(firstId, articulo, files[..n], labels, base, user)
        + [Archivo(firstId + n, articulo, files[n], labels[n], base + n, Some(user))]
  }

  /** One more upload adds one more row at the end. */
  lemma AdjuntosSnoc(firstId: nat, articulo: nat, files: seq<string>, labels: seq<string>, base: nat,
                     user: nat, i: nat)
    requires i < |files| <= |labels|
    ensures Adjuntos(firstId, articulo, files[..i + 1], labels, base, user)
         == Adjuntos(firstId, articulo, files[..i], labels, base, user)
            + [Archivo(firstId + i, articulo, files[i], labels[i], base + i, Some(user))]
  {
    assert files[..i + 1][..i] == files[..i];
  }

  /** The attachments of an article, in table order. */
  function OrdenesOf(rows: seq<Archivo>, articulo: nat): seq<nat> {
    if rows == [] then []
    else OrdenesOf(rows[..|rows| - 1], articulo) + (if rows[|rows| - 1].articulo == articulo then [rows[|rows| - 1].orden] else [])
  }

  /** `articulo.archivos.count()`. */
  function CountAdjuntos(rows: seq<Archivo>, articulo: nat): nat {
    |OrdenesOf(rows, articulo)|
  }

  /** 0, 1, ..., n - 1. */
  function Range(lo: nat, n: nat): (r: seq<nat>)
    ensures |r| == n
    ensures forall k :: 0 <= k < n ==> r[k] == lo + k
  {
    seq(n, k requires 0 <= k < n => lo + k)
  }

  lemma RangeConcat(lo: nat, m: nat, n: nat)
    ensures Range(lo, m) + Range(lo + m, n) == Range(lo, m + n)
  {
    var a := Range(lo, m) + Range(lo + m, n);
    forall k | 0 <= k < m + n ensures a[k] == Range(lo, m + n)[k] {
      if k < m { assert a[k] == Range(lo, m)[k]; } else { assert a[k] == Range(lo + m, n)[k - m]; }
    }
  }

  lemma {:induction false} OrdenesAppend(a: seq<Archivo>, b: seq<Archivo>, articulo: nat)
    ensures OrdenesOf(a + b, articulo) == OrdenesOf(a, articulo) + OrdenesOf(b, articulo)
    decreases |b|
  {
    if b == [] {
      assert a + b == a;
    } else {
      var b0, last := b[..|b| - 1], b[|b| - 1];
      assert (a + b)[..|a + b| - 1] == a + b0;
      OrdenesAppend(a, b0, articulo);
    }
  }

  /** A batch of uploads for one article numbers its rows from `base` on and adds nothing
      to any other article. */
  lemma {:induction false} OrdenesOfAdjuntos(firstId: nat, articulo: nat, files: seq<string>, labels: seq<string>,
                                             base: nat, user: nat, other: nat)
    requires |files| <= |labels|
    ensures OrdenesOf(Adjuntos(firstId, articulo, files, labels, base, user), articulo) == Range(base, |files|)
    ensures other != articulo ==> OrdenesOf(Adjuntos(firstId, articulo, files, labels, base, user), other) == []
    decreases |files|
  {
    if files != [] {
      var n := |files| - 1;
      var init := files[..n];
      var row := Archivo(firstId + n, articulo, files[n], labels[n], base + n, Some(user));
      AdjuntosSnoc(firstId, articulo, files, labels, base, user, n);
      assert files[..n + 1] == files;
      OrdenesAppend(Adjuntos(firstId, articulo, init, labels, base, user), [row], articulo);
      OrdenesAppend(Adjuntos(firstId, articulo, init, labels, base, user), [row], other);
      assert [row][..0] == [];
      OrdenesOfAdjuntos(firstId, articulo, init, labels, base, user, other);
      RangeConcat(base, n, 1);
      assert Range(base + n, 1) == [base + n];
    }
  }

  /** Absent deletions, an article's attachments are numbered 0, 1, 2, ... in upload
      order: creation starts at 0, and each edit continues from the current count. */
  lemma NumberingStaysDense(before: seq<Archivo>, firstId: nat, articulo: nat, files: seq<string>,
                            labels: seq<string>, user: nat, other: nat)
    requires |files| <= |labels|
    requires OrdenesOf(before, articulo) == Range(0, CountAdjuntos(before, articulo))
    ensures var after := before + Adjuntos(firstId, articulo, files, labels, CountAdjuntos(before, articulo), user);
      && OrdenesOf(after, articulo) == Range(0, CountAdjuntos(after, articulo))
      && CountAdjuntos(after, articulo) == CountAdjuntos(before, articulo) + |files|
      && (other != articulo ==> OrdenesOf(after, other) == OrdenesOf(before, other))
  {
    var c := CountAdjuntos(before, articulo);
    var add := Adjuntos(firstId, articulo, files, labels, c, user);
    OrdenesOfAdjuntos(firstId, articulo, files, labels, c, user, other);
    DenseAppend(before, add, articulo, other);
  }

  /** Appending rows numbered on from the current count keeps the numbering dense. */
  lemma DenseAppend(before: seq<Archivo>, add: seq<Archivo>, articulo: nat, other: nat)
    requires OrdenesOf(before, articulo) == Range(0, CountAdjuntos(before, articulo))
    requires OrdenesOf(add, articulo) == Range(CountAdjuntos(before, articulo), |add|)
    requires other != articulo ==> OrdenesOf(add, other) == []
    ensures OrdenesOf(before + add, articulo) == Range(0, CountAdjuntos(before + add, articulo))
    ensures CountAdjuntos(before + add, articulo) == CountAdjuntos(before, articulo) + |add|
    ensures other != articulo ==> OrdenesOf(before + add, other) == OrdenesOf(before, other)
  {
    OrdenesAppend(before, add, articulo);
    OrdenesAppend(before, add, other);
    RangeConcat(0, CountAdjuntos(before, articulo), |add|);
  }

  /** The text search of `faq_listar`: the query occurs, ignoring case, in the title, the
      problem, the solution or the tags. */
  predicate Matches(a: Articulo, q: string) {
    ContainsIgnoreCase(a.titulo, q) || ContainsIgnoreCase(a.problema, q) ||
    ContainsIgnoreCase(a.solucion, q) || ContainsIgnoreCase(a.tags, q)
  }

  /** `require_role(user, "ADMIN") or require_role(user, "TECNICO")`. */
  predicate CanManage(u: Usuario) {
    RequireRole(Authenticated(u), "ADMIN") || RequireRole(Authenticated(u), "TECNICO")
  }

  datatype VoteOutcome =
    | MethodNotAllowed             // 405
    | VoteNotFound                 // 404: no such published article
    | InvalidVote                  // 400
    | AlreadyVoted(anterior: bool) // 400, with the earlier vote
    | Voted(utilSi: int, utilNo: int)

  datatype DetailOutcome = DetailNotFound | Detail(articulo: Articulo, voto: Option<bool>)

  /** `InvalidCategory` is the IntegrityError the save raises when the form's category
      names no Categoria row: nothing is written. */
  datatype AdminOutcome =
    | AdminForbidden | AdminNotFound | FormShown | FieldsMissing | InvalidCategory
    | ArticleCreated(id: nat) | ArticleUpdated

  // ----------------------------------------------------------------------------------
  // The store
  // ----------------------------------------------------------------------------------

  class FaqStore {
    var articulos: map<nat, Articulo>
    var nextArticuloId: nat
    var votos: seq<Voto>
    var archivos: seq<Archivo>
    var nextArchivoId: nat
    /** The ids of the Categoria table, which the FAQ views only read. */
    var categorias: set<nat>

    /** Articles keyed by id, each in a stored category or none; one vote per user and
        article; every vote and attachment names a stored article; and each article's
        counters are its votes of each kind. */
    ghost predicate Valid()
      reads this
    {
      && (forall id :: id in articulos ==> articulos[id].id == id && id < nextArticuloId)
      && (forall id :: id in articulos ==> CategoriaOk(articulos[id].categoria))
      && UniqueVotes(votos)
      && (forall k :: 0 <= k < |votos| ==> votos[k].articulo in articulos)
      && (forall id :: id in articulos ==>
            articulos[id].utilSi == CountVotes(votos, id, true) && articulos[id].utilNo == CountVotes(votos, id, false))
      && ArchivosOk()
    }

    /** Every attachment row names a stored article and has an id already handed out. */
    ghost predicate ArchivosOk()
      reads this
    {
      forall k :: 0 <= k < |archivos| ==> archivos[k].articulo in articulos && archivos[k].id < nextArchivoId
    }

    constructor (categorias: set<nat>)
      ensures Valid() && articulos == map[] && votos == [] && archivos == []
      ensures this.categorias == categorias
    {
      this.categorias := categorias;
      articulos, nextArticuloId := map[], 0;
      votos := [];
      archivos, nextArchivoId := [], 0;
    }

    /** The nullable `categoria_id` names a stored category, as the foreign key demands. */
    predicate CategoriaOk(c: Option<nat>)
      reads this
    {
      c.None? || c.value in categorias
    }

    /** The article is stored and published: the filter of the detail and vote views. */
    predicate Visible(id: nat)
      reads this
    {
      id in articulos && articulos[id].publicado
    }

    /** `total_votos` of a stored article is the number of its vote rows, and the helpfulness
        percentage is missing exactly when it has none. */
    lemma TotalIsVoteCount(id: nat)
      requires Valid() && id in articulos
      ensures TotalVotos(articulos[id]) == VotesOn(votos, id)
      ensures PorcentajeUtilidad(articulos[id]).None? <==> VotesOn(votos, id) == 0
    {
      CountVotesSplit(votos, id);
    }

    /** `faq_listar`: the published articles; a query that is not blank after stripping
        keeps those it matches; a category keeps those in it. */
    function Listar(rawQuery: string, categoria: Option<nat>): (r: set<nat>)
      reads this
      ensures forall id :: id in r <==>
                && id in articulos && articulos[id].publicado
                && (Strip(rawQuery) == [] || Matches(articulos[id], Strip(rawQuery)))
                && (categoria.None? || articulos[id].categoria == categoria)
    {
      var q := Strip(rawQuery);
      var publicados := set id | id in articulos && articulos[id].publicado;
      var buscados := if q == [] then publicados else set id | id in publicados && Matches(articulos[id], q);
      if categoria.None? then buscados else set id | id in buscados && articulos[id].categoria == categoria
    }

    /** A blank query with no category lists every published article, and every filter
        only narrows it. */
    lemma ListarNarrows(rawQuery: string, categoria: Option<nat>)
      ensures Listar(rawQuery, categoria) <= Listar("", None)
      ensures forall id :: id in Listar("", None) <==> Visible(id)
    {
      assert Strip("") == [];
    }

    /** The vote `user` gave article `id`, if any. */
    function PriorVote(user: nat, id: nat): (r: Option<bool>)
      reads this
      ensures r.Some? <==> FindVote(votos, user, id).Some?
    {
      match FindVote(votos, user, id)
      case None => None
      case Some(k) => Some(votos[k].util)
    }

    /** `faq_detalle`: a published article's view count goes up by one and the page shows
        it with the user's earlier vote; anything else is a 404 and changes nothing. */
    method Detalle(user: nat, id: nat) returns (out: DetailOutcome)
      requires Valid()
      modifies this`articulos
      ensures Valid()
      ensures !old(Visible(id)) ==> out == DetailNotFound && articulos == old(articulos)
      ensures old(Visible(id)) ==>
                && articulos == old(articulos)[id := old(articulos)[id].(vistas := old(articulos)[id].vistas + 1)]
                && out == Detail(articulos[id], PriorVote(user, id))
    {
      if !Visible(id) {
        return DetailNotFound;
      }
      var a := articulos[id];
      articulos := articulos[id := a.(vistas := a.vistas + 1)];
      out := Detail(articulos[id], PriorVote(user, id));
    }

    /** `faq_votar`, checked in the view's order: the method, the article, the vote value,
        an earlier vote; then the vote row is stored and its counter moves by one. */
    method Votar(user: nat, isPost: bool, id: nat, voto: Option<string>) returns (out: VoteOutcome)
      requires Valid()
      modifies this`votos, this`articulos
      ensures Valid()
      ensures !isPost ==> out == MethodNotAllowed && unchanged(this)
      ensures isPost && !old(Visible(id)) ==> out == VoteNotFound && unchanged(this)
      ensures isPost && old(Visible(id)) && VoteValue(voto).None? ==> out == InvalidVote && unchanged(this)
      ensures isPost && old(Visible(id)) && VoteValue(voto).Some? && old(PriorVote(user, id)).Some? ==>
                out == AlreadyVoted(old(PriorVote(user, id)).value) && unchanged(this)
      ensures isPost && old(Visible(id)) && VoteValue(voto).Some? && old(PriorVote(user, id)).None? ==>
                && votos == old(votos) + [Voto(user, id, VoteValue(voto).value)]
                && articulos == old(articulos)[id := Counted(old(articulos)[id], VoteValue(voto).value)]
                && out == Voted(articulos[id].utilSi, articulos[id].utilNo)
    {
      if !isPost {
        return MethodNotAllowed;
      }
      if !Visible(id) {
        return VoteNotFound;
      }
      var util := VoteValue(voto);
      if util.None? {
        return InvalidVote;
      }
      var previo := PriorVote(user, id);
      if previo.Some? {
        return AlreadyVoted(previo.value);
      }
      StoreVote(Voto(user, id, util.value));
      out := Voted(articulos[id].utilSi, articulos[id].utilNo);
    }

    /** Stores a first vote of a user on a stored article and moves its counter. */
    method StoreVote(v: Voto)
      requires Valid() && v.articulo in articulos && FindVote(votos, v.usuario, v.articulo).None?
      modifies this`votos, this`articulos
      ensures Valid()
      ensures votos == old(votos) + [v]
      ensures articulos == old(articulos)[v.articulo := Counted(old(articulos)[v.articulo], v.util)]
    {
      forall other | other in articulos
        ensures CountVotes(votos + [v], other, true) == CountVotes(votos, other, true) + (if other == v.articulo && v.util then 1 else 0)
        ensures CountVotes(votos + [v], other, false) == CountVotes(votos, other, false) + (if other == v.articulo && !v.util then 1 else 0)
      {
        CountVotesSnoc(votos, v, other, true);
        CountVotesSnoc(votos, v, other, false);
      }
      votos := votos + [v];
      articulos := articulos[v.articulo := Counted(articulos[v.articulo], v.util)];
    }

    /** A successful vote is the user's last on that article: asking again is answered with
        the vote just stored. */
    lemma SecondVoteRefused(user: nat, id: nat, util: bool)
      requires UniqueVotes(votos) && FindVote(votos, user, id).None?
      ensures UniqueVotes(votos + [Voto(user, id, util)])
      ensures FindVote(votos + [Voto(user, id, util)], user, id) == Some(|votos|)
      ensures VotesBy(votos + [Voto(user, id, util)], user, id) == 1
    {
      var vs := votos + [Voto(user, id, util)];
      assert vs[..|vs| - 1] == votos;
      UniqueVotesAtMostOne(votos, user, id);
    }

    /** The upload loop of the admin create and edit views. */
    method AddAdjuntos(articulo: nat, files: seq<string>, descs: seq<string>, base: nat, user: nat)
      requires Valid() && articulo in articulos
      modifies this`archivos, this`nextArchivoId
      ensures Valid()
      ensures archivos == old(archivos) + Adjuntos(old(nextArchivoId), articulo, files, Descripciones(descs, |files|), base, user)
      ensures nextArchivoId == old(nextArchivoId) + |files|
    {
      CreateArchivos(articulo, files, descs, base, user);
    }

    /** One `ArchivoFAQ.objects.create` per uploaded file, in upload order. */
    method CreateArchivos(articulo: nat, files: seq<string>, descs: seq<string>, base: nat, user: nat)
      requires ArchivosOk() && articulo in articulos
      modifies this`archivos, this`nextArchivoId
      ensures ArchivosOk()
      ensures archivos == old(archivos) + Adjuntos(old(nextArchivoId), articulo, files, Descripciones(descs, |files|), base, user)
      ensures nextArchivoId == old(nextArchivoId) + |files|
    {
      ghost var start, first := archivos, nextArchivoId;
      ghost var labels := Descripciones(descs, |files|);
      var i := 0;
      while i < |files|
        invariant 0 <= i <= |files|
        invariant ArchivosOk()
        invariant nextArchivoId == first + i
        invariant archivos == start + Adjuntos(first, articulo, files[..i], labels, base, user)
      {
        var descripcion := if i < |descs| then descs[i] else "Archivo " + NatToString(i + 1);
        var row := Archivo(nextArchivoId, articulo, files[i], Strip(descripcion), base + i, Some(user));
        ghost var done := Adjuntos(first, articulo, files[..i], labels, base, user);
        assert row == Archivo(first + i, articulo, files[i], labels[i], base + i, Some(user));
        AdjuntosSnoc(first, articulo, files, labels, base, user, i);
        archivos := archivos + [row];
        assert archivos == start + (done + [row]);
        nextArchivoId := nextArchivoId + 1;
        i := i + 1;
      }
      assert files[..i] == files;
    }

    /** `faq_admin_crear`: only administrators and technicians; a POST with a title, a
        problem and a solution creates the article, then its attachments numbered from 0;
        a category id naming no row makes the create fail before anything is written. */
    method AdminCrear(user: Usuario, isPost: bool, f: FaqForm, files: seq<string>, descs: seq<string>)
      returns (out: AdminOutcome)
      requires Valid()
      modifies this`articulos, this`nextArticuloId, this`archivos, this`nextArchivoId
      ensures Valid()
      ensures !(CanManage(user) && isPost && Complete(f) && CategoriaOk(f.categoria)) ==>
                out == (if !CanManage(user) then AdminForbidden else if !isPost then FormShown
                        else if !Complete(f) then FieldsMissing else InvalidCategory)
                && unchanged(this)
      ensures CanManage(user) && isPost && Complete(f) && CategoriaOk(f.categoria) ==>
                var id := old(nextArticuloId);
                && out == ArticleCreated(id) && id !in old(articulos)
                && articulos == old(articulos)[id := NewArticle(id, f, user.id)]
                && votos == old(votos)
                && archivos == old(archivos) + Adjuntos(old(nextArchivoId), id, files, Descripciones(descs, |files|), 0, user.id)
    {
      if !CanManage(user) {
        return AdminForbidden;
      }
      if !isPost {
        return FormShown;
      }
      if !Complete(f) {
        return FieldsMissing;
      }
      if !CategoriaOk(f.categoria) {
        return InvalidCategory;
      }
      var id := CreateArticle(f, user.id, files, descs);
      out := ArticleCreated(id);
    }

    /** The create itself: the article under a fresh id, then its attachments. */
    method CreateArticle(f: FaqForm, autor: nat, files: seq<string>, descs: seq<string>) returns (id: nat)
      requires Valid() && CategoriaOk(f.categoria)
      modifies this`articulos, this`nextArticuloId, this`archivos, this`nextArchivoId
      ensures Valid()
      ensures id == old(nextArticuloId) && id !in old(articulos)
      ensures articulos == old(articulos)[id := NewArticle(id, f, autor)]
      ensures archivos == old(archivos) + Adjuntos(old(nextArchivoId), id, files, Descripciones(descs, |files|), 0, autor)
    {
      id := nextArticuloId;
      CountVotesNone(votos, id, true);
      CountVotesNone(votos, id, false);
      articulos := articulos[id := NewArticle(id, f, autor)];
      nextArticuloId := nextArticuloId + 1;
      AddAdjuntos(id, files, descs, 0, autor);
    }

    /** `faq_admin_editar`: only administrators and technicians; any article, published or
        not; a POST saves the form as it is, blank fields included, then numbers the new
        attachments from the article's current attachment count; a category id naming no
        row makes the save fail, so nothing is written and no attachment is added. */
    method AdminEditar(user: Usuario, id: nat, isPost: bool, f: FaqForm, files: seq<string>, descs: seq<string>)
      returns (out: AdminOutcome)
      requires Valid()
      modifies this`articulos, this`archivos, this`nextArchivoId
      ensures Valid()
      ensures !(CanManage(user) && id in old(articulos) && isPost && CategoriaOk(f.categoria)) ==>
                out == (if !CanManage(user) then AdminForbidden else if id !in old(articulos) then AdminNotFound
                        else if !isPost then FormShown else InvalidCategory)
                && unchanged(this)
      ensures CanManage(user) && id in old(articulos) && isPost && CategoriaOk(f.categoria) ==>
                && out == ArticleUpdated
                && articulos == old(articulos)[id := EditedArticle(old(articulos)[id], f)]
                && archivos == old(archivos) + Adjuntos(old(nextArchivoId), id, files, Descripciones(descs, |files|),
                                                           CountAdjuntos(old(archivos), id), user.id)
    {
      if !CanManage(user) {
        return AdminForbidden;
      }
      if id !in articulos {
        return AdminNotFound;
      }
      if !isPost {
        return FormShown;
      }
      if !CategoriaOk(f.categoria) {
        return InvalidCategory;
      }
      articulos := articulos[id := EditedArticle(articulos[id], f)];
      var count := CountAdjuntos(archivos, id);
      AddAdjuntos(id, files, descs, count, user.id);
      out := ArticleUpdated;
    }
  }
}
