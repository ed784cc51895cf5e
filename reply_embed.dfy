/** The reply embed as the handler builds it: a builder object whose title,
    description, fields and footer are set one call at a time, with the
    optional fields added under `if`s. */
module ReplyEmbed {
  import opened Decimal
  import opened FlightStatus

  /** The part of discord.js's `EmbedBuilder` the handler uses. */
  class EmbedBuilder {
    var title: string
    var description: string
    var fields: seq<Field>
    var footer: Option<string>

    /** The embed built so far. */
    function Current(): (e: Embed)
      reads this
      ensures e.fields == fields
    {
      Embed(title, description, fields, footer)
    }

    constructor ()
      ensures Current() == Embed("", "", [], None)
    {
      title := "";
      description := "";
      fields := [];
      footer := None;
    }

    method SetTitle(t: string)
      modifies this
      ensures Current() == old(Current()).(title := t)
    {
      title := t;
    }

    method SetDescription(d: string)
      modifies this
      ensures Current() == old(Current()).(description := d)
    {
      description := d;
    }

    /** Adding fields appends them, in order, after those already there. */
    method AddFields(fs: seq<Field>)
      modifies this
      ensures Current() == old(Current()).(fields := old(fields) + fs)
    {
      fields := fields + fs;
    }

    method SetFooter(text: string)
      modifies this
      ensures Current() == old(Current()).(footer := Some(text))
    {
      footer := Some(text);
    }
  }

  /** Builds the status embed of a connected pilot one call at a time. */
  method BuildStatusEmbed(p: Pilot, nowMs: int) returns (e: Embed)
    ensures e == StatusEmbed(p, nowMs)
  {
    var embed := new EmbedBuilder();
    embed.SetTitle(p.callsign);
    embed.SetDescription("Pilot CID: **" + NatToString(p.cid) + "** is currently online!");
    var mandatory := MandatoryFields(p, nowMs);
    embed.AddFields(mandatory);
    if HasFiledAltitude(p.flightPlan) {
      embed.AddFields([Field("Filed Altitude", p.flightPlan.value.altitude, true)]);
    }
    assert embed.fields == mandatory + FiledAltitudeFields(p.flightPlan);
    if HasFiledRoute(p.flightPlan) {
      var route := TruncateRoute(p.flightPlan.value.route);
      embed.AddFields([Field("Filed Route", OrElse(route, NotAvailable), false)]);
    }
    assert embed.fields == StatusFields(p, nowMs);
    embed.SetFooter("Position: " + p.latitudeText + ", " + p.longitudeText);
    e := embed.Current();
  }

  /** Looks the configured pilot up and builds the "Not Online" embed or
      that pilot's status embed. */
  method Respond(pilots: seq<Pilot>, target: string, nowMs: int) returns (e: Embed)
    ensures e == Reply(pilots, target, nowMs)
    ensures e.fields == [] <==> forall i :: 0 <= i < |pilots| ==> !CidMatches(pilots[i], target)
  {
    ReplyCases(pilots, target, nowMs);
    var pilot := FindPilot(pilots, target);
    if pilot.None? {
      var embed := new EmbedBuilder();
      embed.SetTitle("Not Online");
      embed.SetDescription("Pilot with CID **" + target + "** is not currently flying on VATSIM.");
      e := embed.Current();
      return;
    }
    e := BuildStatusEmbed(pilot.value, nowMs);
  }
}
