/**
 * The `CaesarApp` page component: one state cell holding the recipient list,
 * the three edit handlers that replace it, and the send handler, a chain of
 * guarded early returns. The wallet connection is an input; the toasts and
 * the connect prompt are reported as the handler's outcome.
 */
module CaesarPage {
  import opened Recipients

  /** What pressing "Send Payments" leads to. */
  datatype SendOutcome =
    | WalletNotConnected            // "Wallet Not Connected" toast, then the connect prompt opens
    | NoValidRecipients             // "Please add recipients with addresses and amounts" toast
    | PaymentInitiated(count: nat)  // "Sending payments to <count> recipients" toast

  class CaesarApp {
    var recipients: seq<Recipient>

    /** The page mounts with one blank row named "1". */
    constructor ()
      ensures recipients == InitialRecipients()
    {
      recipients := InitialRecipients();
    }

    method AddRecipient()
      modifies this
      ensures recipients == Add(old(recipients))
    {
      recipients := Add(recipients);
    }

    method RemoveRecipient(id: string)
      modifies this
      ensures recipients == Remove(old(recipients), id)
    {
      recipients := Remove(recipients, id);
    }

    method UpdateRecipient(id: string, field: Field, value: string)
      modifies this
      ensures recipients == Update(old(recipients), id, field, value)
    {
      recipients := Update(recipients, id, field, value);
    }

    /**
     * `handleSendPayments`: the connection is checked first and, when it is
     * missing, the list is not looked at; then a send needs at least one row
     * with a non-blank address and amount; otherwise the payment is reported
     * as initiated for exactly the valid rows. The list is never changed.
     */
    method HandleSendPayments(isConnected: bool) returns (outcome: SendOutcome)
      ensures !isConnected <==> outcome == WalletNotConnected
      ensures outcome == NoValidRecipients <==>
        isConnected && forall i :: 0 <= i < |recipients| ==> !IsValid(recipients[i])
      ensures outcome.PaymentInitiated? <==>
        isConnected && exists i :: 0 <= i < |recipients| && IsValid(recipients[i])
      ensures outcome.PaymentInitiated? ==>
        outcome.count == |ValidRecipients(recipients)| && 1 <= outcome.count <= |recipients|
    {
      if !isConnected {
        return WalletNotConnected;
      }
      var validRecipients := ValidRecipients(recipients);
      if |validRecipients| == 0 {
        return NoValidRecipients;
      }
      return PaymentInitiated(|validRecipients|);
    }
  }

  /**
   * A session on the page as written: add a row, remove row "1", add a row,
   * remove row "2". The two rows named "2" both go, the list is empty, and a
   * connected send is refused for lack of valid rows.
   */
  method EmptyingSession() {
    var app := new CaesarApp();
    app.AddRecipient();
    app.RemoveRecipient("1");
    app.AddRecipient();
    app.RemoveRecipient("2");
    RunCanEmptyList();
    assert app.recipients == Run(InitialRecipients(), [AddEntry, RemoveEntry("1"), AddEntry, RemoveEntry("2")]);
    assert app.recipients == [];
    var outcome := app.HandleSendPayments(true);
    assert outcome == NoValidRecipients;
  }
}
