/**
 * The static content of the landing page (rooms, amenities, feature highlights)
 * and the helpers that give each card its component-registry ID.
 * Icons and images are not modelled; the ID type is a plain string.
 */
module Content {

  /** A room offering; the price is the display string the page shows. */
  datatype Room = Room(name: string, price: string, image: string, features: seq<string>, description: string)

  /** An amenity tile (its icon is not modelled). */
  datatype Amenity = Amenity(name: string)

  /** A feature highlight in the carousel (its icon is not modelled). */
  datatype Feature = Feature(title: string, description: string)

  const Placeholder: string := "/api/placeholder/400/300"

  const Rooms: seq<Room> := [
    Room("Standard Room", "€89", Placeholder,
         ["Free WiFi", "Air Conditioning", "Private Bathroom", "TV"],
         "Comfortable standard room with modern amenities"),
    Room("Deluxe Room", "€129", Placeholder,
         ["Free WiFi", "Air Conditioning", "Mini Bar", "City View"],
         "Spacious deluxe room with beautiful city views"),
    Room("Executive Suite", "€199", Placeholder,
         ["Free WiFi", "Separate Living Area", "Premium Amenities", "River View"],
         "Luxurious suite with separate living area and premium services"),
    Room("Family Room", "€159", Placeholder,
         ["Free WiFi", "Extra Space", "Family Amenities", "Garden View"],
         "Perfect for families with extra space and child-friendly amenities")
  ]

  const Amenities: seq<Amenity> := [
    Amenity("Free WiFi"), Amenity("Free Parking"), Amenity("Restaurant"),
    Amenity("Room Service"), Amenity("Conference Rooms"), Amenity("Concierge Service")
  ]

  const Features: seq<Feature> := [
    Feature("Prime Location",
            "Located in the heart of Nijmegen with easy access to historic sites and shopping"),
    Feature("Fine Dining",
            "Award-winning restaurant serving local and international cuisine"),
    Feature("Luxury Comfort",
            "Elegantly appointed rooms with premium amenities and modern facilities"),
    Feature("Business Facilities",
            "State-of-the-art conference rooms and business center for corporate events"),
    Feature("Rooftop Bar",
            "Stunning rooftop bar with panoramic views of Nijmegen and craft cocktails")
  ]

  /** The registry ID every placeholder card carries. */
  const NoId: string := "noID"

  const RoomCardIds: seq<string> := [NoId, NoId, NoId, NoId]
  const AmenityIds: seq<string> := [NoId, NoId, NoId, NoId, NoId, NoId]
  const FeatureCardIds: seq<string> := [NoId, NoId, NoId, NoId, NoId]

  /**
   * `ids[index] || 'noID'`: the table entry when the index hits a non-empty
   * entry, and the fallback `'noID'` for an index outside the table
   * (negative indices included).
   */
  function LookupId(ids: seq<string>, index: int): (id: string)
    ensures 0 <= index < |ids| && ids[index] != "" ==> id == ids[index]
    ensures 0 <= index < |ids| && ids[index] == "" ==> id == NoId
    ensures !(0 <= index < |ids|) ==> id == NoId
  {
    if 0 <= index < |ids| && ids[index] != "" then ids[index] else NoId
  }

  /** Every room card, whatever its index, gets the ID `'noID'`. */
  function RoomCardId(index: int): (id: string)
    ensures id == NoId
  {
    LookupId(RoomCardIds, index)
  }

  /** Every amenity tile, whatever its index, gets the ID `'noID'`. */
  function AmenityId(index: int): (id: string)
    ensures id == NoId
  {
    LookupId(AmenityIds, index)
  }

  /** Every feature card, whatever its key, gets the ID `'noID'`. */
  function FeatureCardId(index: int): (id: string)
    ensures id == NoId
  {
    LookupId(FeatureCardIds, index)
  }

  /** Each ID table has one entry per item it labels. */
  lemma IdTablesMatchContent()
    ensures |RoomCardIds| == |Rooms| && |AmenityIds| == |Amenities| && |FeatureCardIds| == |Features|
  {
  }
}
