/**
 * `aprobarRechazarRegistro` in `aprobacion.controller.js`: an administrator approves or rejects a
 * benefactor registration. Inside one transaction the controller looks the benefactor up (joined
 * with the user who loaded it), refuses anything that is not pending, sets the new registration
 * state, records the decision and notifies the loader; any error rolls all of it back.
 */
module Approvals {
  import opened Wrappers
  import opened JsText

  /** `estado_aprobacion`, which the request validator limits to `APROBADO` and `RECHAZADO`. */
  datatype Decision = Approved | Rejected

  function DecisionText(d: Decision): string {
    match d
    case Approved => "APROBADO"
    case Rejected => "RECHAZADO"
  }

  /** The columns of a `benefactores` row the controller reads or writes. */
  datatype Benefactor = Benefactor(estadoRegistro: string, nombreCompleto: string, idUsuario: int)

  /** A row of `aprobaciones_benefactores`. */
  datatype Approval = Approval(idBenefactor: int, idAdmin: int, estado: string, comentario: Option<string>)

  /** The arguments of `crear_notificacion`. */
  datatype Notification = Notification(idUsuario: int, tipo: string, titulo: string, mensaje: string, link: string)

  /** The HTTP status and message of the reply. */
  datatype Reply = Reply(code: int, message: string)

  /** The statement of the transaction at which the database raises an error, if any. */
  datatype Fault = AtUpdate | AtInsert | AtNotification

  const Pending := "PENDIENTE"
  const NotFoundMessage := "Benefactor no encontrado"
  const AlreadyProcessedMessage := "El registro ya fue procesado"
  const ProcessingErrorMessage := "Error al procesar aprobación"
  const NotificationType := "APROBACION_BENEFACTOR"
  const ApprovedTitle := "\U{2705} Benefactor aprobado"
  const RejectedTitle := "\U{274C} Benefactor rechazado"
  const ReasonLabel := ". Motivo: "

  function Title(d: Decision): (t: string)
    ensures t == ApprovedTitle <==> d == Approved
  {
    if d == Approved then ApprovedTitle else RejectedTitle
  }

  /** `comentario ? ... : ...`: an absent or empty comment is falsy. */
  predicate HasReason(comentario: Option<string>) {
    comentario.Some? && comentario.value != []
  }

  /** The opening every notification message shares. */
  function Opening(nombre: string): string {
    "El benefactor " + nombre + " ha sido "
  }

  /** The notification text: an approval thanks, a rejection gives the reason when there is one. */
  function Message(d: Decision, nombre: string, comentario: Option<string>): string {
    if d == Approved then Opening(nombre) + "aprobado exitosamente."
    else Opening(nombre) + "rechazado" + (if HasReason(comentario) then ReasonLabel + comentario.value else ".")
  }

  /** `/benefactores/${id_benefactor}`. */
  function Link(idBenefactor: int): string {
    "/benefactores/" + IntToString(idBenefactor)
  }

  /** The notification for the user who loaded the benefactor. */
  function NotificationFor(b: Benefactor, idBenefactor: int, d: Decision, comentario: Option<string>): (n: Notification)
    ensures n.idUsuario == b.idUsuario && n.tipo == NotificationType
    ensures n.titulo == ApprovedTitle <==> d == Approved
  {
    Notification(b.idUsuario, NotificationType, Title(d), Message(d, b.nombreCompleto, comentario), Link(idBenefactor))
  }

  /** `Registro ${estado_aprobacion.toLowerCase()} exitosamente`. */
  function SuccessMessage(d: Decision): string {
    "Registro " + ToLower(DecisionText(d)) + " exitosamente"
  }

  /** Every message starts by naming the benefactor. */
  lemma MessageNamesBenefactor(d: Decision, nombre: string, comentario: Option<string>)
    ensures var m := Message(d, nombre, comentario);
      |m| > |Opening(nombre)| && m[..|Opening(nombre)|] == Opening(nombre)
  {
  }

  /** An approval carries no reason: its message does not depend on the comment. */
  lemma ApprovalIgnoresComment(nombre: string, c1: Option<string>, c2: Option<string>)
    ensures Message(Approved, nombre, c1) == Message(Approved, nombre, c2)
  {
  }

  /** An empty comment reads as none. */
  lemma EmptyCommentIsNoReason(d: Decision, nombre: string)
    ensures Message(d, nombre, Some("")) == Message(d, nombre, None)
  {
  }

  /** A rejection with a comment ends with that comment, after the reason label. */
  lemma RejectionEndsWithReason(nombre: string, c: string)
    requires c != []
    ensures var m := Message(Rejected, nombre, Some(c));
      |m| >= |ReasonLabel + c| && m[|m| - |ReasonLabel + c|..] == ReasonLabel + c
  {
    var m := Message(Rejected, nombre, Some(c));
    assert m == (Opening(nombre) + "rechazado") + (ReasonLabel + c);
  }

  /** A rejection without a usable comment ends with a full stop. */
  lemma RejectionWithoutReason(nombre: string, c: Option<string>)
    requires !HasReason(c)
    ensures var m := Message(Rejected, nombre, c);
      m[|m| - 1] == '.' && ReasonLabel[0] == '.'
  {
  }

  /** Whatever the comments, the approval and the rejection of one benefactor read differently. */
  lemma MessagesTellDecisions(nombre: string, c1: Option<string>, c2: Option<string>)
    ensures Message(Approved, nombre, c1) != Message(Rejected, nombre, c2)
  {
    var k := |Opening(nombre)|;
    var a := Message(Approved, nombre, c1);
    var r := Message(Rejected, nombre, c2);
    assert a[k] == 'a';
    assert r == Opening(nombre) + ("rechazado" + (if HasReason(c2) then ReasonLabel + c2.value else "."));
    assert r[k] == 'r';
  }

  /** `toLowerCase()` of a word in capitals `A`-`Z` shifts each letter by 32 code points. */
  lemma LowerOfCapitals(s: string, l: string)
    requires |l| == |s|
    requires forall i :: 0 <= i < |s| ==> 'A' <= s[i] <= 'Z' && l[i] == (s[i] as int + 32) as char
    ensures ToLower(s) == l
  {
    ToLowerByChars(s, l);
  }

  /** A decided registration is no longer pending. */
  lemma DecidedIsNotPending(d: Decision)
    ensures DecisionText(d) != Pending
  {
    assert DecisionText(d)[0] != Pending[0];
  }

  /** The reply names an approval in lower case. */
  lemma ApprovedInLowerCase()
    ensures ToLower(DecisionText(Approved)) == "aprobado"
  {
    LowerOfCapitals(DecisionText(Approved), "aprobado");
  }

  /** The reply names a rejection in lower case. */
  lemma RejectedInLowerCase()
    ensures ToLower(DecisionText(Rejected)) == "rechazado"
  {
    LowerOfCapitals(DecisionText(Rejected), "rechazado");
  }

  /**
   * The tables the controller touches: benefactors by `id_benefactor`, the ids of `usuarios`,
   * the recorded decisions and the notifications created, in order.
   */
  class ApprovalDesk {
    var benefactores: map<int, Benefactor>
    var usuarios: set<int>
    var approvals: seq<Approval>
    var notifications: seq<Notification>

    constructor (benefactores: map<int, Benefactor>, usuarios: set<int>)
      ensures this.benefactores == benefactores && this.usuarios == usuarios
      ensures approvals == [] && notifications == []
    {
      this.benefactores := benefactores;
      this.usuarios := usuarios;
      approvals := [];
      notifications := [];
    }

    /** The lookup finds a row: the benefactor exists and so does the user who loaded it. */
    predicate Found(idBenefactor: int)
      reads this
    {
      idBenefactor in benefactores && benefactores[idBenefactor].idUsuario in usuarios
    }

    /**
     * `aprobarRechazarRegistro` for benefactor `idBenefactor`, decided by `idAdmin`; `fault` is the
     * statement at which the database fails, if it does.
     */
    method Decide(idBenefactor: int, d: Decision, comentario: Option<string>, idAdmin: int, fault: Option<Fault>)
      returns (reply: Reply)
      modifies this
      ensures usuarios == old(usuarios)
      ensures !old(Found(idBenefactor)) ==> reply == Reply(404, NotFoundMessage)
      ensures old(Found(idBenefactor)) && old(benefactores[idBenefactor].estadoRegistro) != Pending ==>
        reply == Reply(400, AlreadyProcessedMessage)
      ensures old(Found(idBenefactor)) && old(benefactores[idBenefactor].estadoRegistro) == Pending && fault.Some? ==>
        reply == Reply(500, ProcessingErrorMessage)
      ensures reply.code != 201 ==>
        benefactores == old(benefactores) && approvals == old(approvals) && notifications == old(notifications)
      ensures old(Found(idBenefactor)) && old(benefactores[idBenefactor].estadoRegistro) == Pending && fault.None? ==>
        var b := old(benefactores[idBenefactor]);
        && reply == Reply(201, SuccessMessage(d))
        && benefactores == old(benefactores)[idBenefactor := b.(estadoRegistro := DecisionText(d))]
        && approvals == old(approvals) + [Approval(idBenefactor, idAdmin, DecisionText(d), comentario)]
        && notifications == old(notifications) + [NotificationFor(b, idBenefactor, d, comentario)]
    {
      if !Found(idBenefactor) {
        return Reply(404, NotFoundMessage);
      }
      var b := benefactores[idBenefactor];
      if b.estadoRegistro != Pending {
        return Reply(400, AlreadyProcessedMessage);
      }
      var committed := Record(idBenefactor, b.(estadoRegistro := DecisionText(d)),
        Approval(idBenefactor, idAdmin, DecisionText(d), comentario), NotificationFor(b, idBenefactor, d, comentario), fault);
      reply := if committed then Reply(201, SuccessMessage(d)) else Reply(500, ProcessingErrorMessage);
    }

    /**
     * The three writes of the transaction — the benefactor's new row `decided`, the `approval` and
     * the `notification` — each of which may fail and roll the others back, then `COMMIT`.
     */
    method Record(idBenefactor: int, decided: Benefactor, approval: Approval, notification: Notification, fault: Option<Fault>)
      returns (committed: bool)
      modifies this
      ensures usuarios == old(usuarios)
      ensures committed <==> fault.None?
      ensures !committed ==>
        benefactores == old(benefactores) && approvals == old(approvals) && notifications == old(notifications)
      ensures committed ==>
        && benefactores == old(benefactores)[idBenefactor := decided]
        && approvals == old(approvals) + [approval]
        && notifications == old(notifications) + [notification]
    {
      // What ROLLBACK restores.
      var savedBenefactores, savedApprovals, savedNotifications := benefactores, approvals, notifications;
      benefactores := benefactores[idBenefactor := decided];
      if fault.Some? && fault.value.AtUpdate? {
        benefactores, approvals, notifications := savedBenefactores, savedApprovals, savedNotifications;
        return false;
      }
      approvals := approvals + [approval];
      if fault.Some? && fault.value.AtInsert? {
        benefactores, approvals, notifications := savedBenefactores, savedApprovals, savedNotifications;
        return false;
      }
      notifications := notifications + [notification];
      if fault.Some? && fault.value.AtNotification? {
        benefactores, approvals, notifications := savedBenefactores, savedApprovals, savedNotifications;
        return false;
      }
      // COMMIT
      committed := true;
    }

    /**
     * A registration is decided once: after a successful decision, a second one on the same
     * benefactor, whatever it decides, is refused and changes nothing.
     */
    method DecideTwice(idBenefactor: int, first: Decision, second: Decision, comentario: Option<string>, idAdmin: int)
      returns (r1: Reply, r2: Reply)
      modifies this
      ensures r1.code == 201 ==> r2 == Reply(400, AlreadyProcessedMessage)
      ensures old(Found(idBenefactor)) && old(benefactores[idBenefactor].estadoRegistro) == Pending ==> r1.code == 201
      ensures r1.code == 201 ==> |approvals| == |old(approvals)| + 1 && |notifications| == |old(notifications)| + 1
    {
      ghost var found := Found(idBenefactor);
      ghost var pending := found && benefactores[idBenefactor].estadoRegistro == Pending;
      r1 := Decide(idBenefactor, first, comentario, idAdmin, None);
      if r1.code == 201 {
        assert found && pending;
        DecidedIsNotPending(first);
        assert Found(idBenefactor) && benefactores[idBenefactor].estadoRegistro != Pending;
      }
      r2 := Decide(idBenefactor, second, comentario, idAdmin, None);
    }
  }
}
